/**
  The rotation-safe tail of an append-only log.  A file is an inode with bytes; a poll sees one
  consistent file, or none.
*/
module LogFollower {
  import opened Wrappers

  const NL := '\n'

  type Bytes = string

  datatype File = File(inode: nat, data: Bytes)

  // ---------------------------------------------------------------- lines

  /** How many bytes readline returns. */
  function LineLength(s: Bytes): (n: nat)
    ensures n <= |s| && (s != [] ==> 0 < n)
  {
    if s == [] then 0 else if s[0] == NL then 1 else 1 + LineLength(s[1..])
  }

  predicate NoNewline(s: Bytes) { forall i :: 0 <= i < |s| ==> s[i] != NL }

  predicate IsLine(s: Bytes) { s != [] && s[|s| - 1] == NL && NoNewline(s[..|s| - 1]) }

  predicate AllLines(lines: seq<Bytes>) { forall i :: 0 <= i < |lines| ==> IsLine(lines[i]) }

  /** The complete lines at the front, and what is left after them. */
  function Lines(s: Bytes): seq<Bytes>
    decreases |s|
  {
    if NoNewline(s) then [] else [s[..LineLength(s)]] + Lines(s[LineLength(s)..])
  }

  function Rest(s: Bytes): Bytes
    decreases |s|
  {
    if NoNewline(s) then s else Rest(s[LineLength(s)..])
  }

  function Flatten(lines: seq<Bytes>): Bytes {
    if lines == [] then [] else lines[0] + Flatten(lines[1..])
  }

  /** The first line of an input that starts with one. */
  lemma {:induction false} FirstLine(line: Bytes, more: Bytes)
    requires IsLine(line)
    ensures LineLength(line + more) == |line| && !NoNewline(line + more)
    ensures (line + more)[..|line|] == line && (line + more)[|line|..] == more
  {
    var s := line + more;
    assert s[|line| - 1] == NL;
    if |line| > 1 {
      assert line[0] == line[..|line| - 1][0];
      assert s[1..] == line[1..] + more;
      assert line[1..][..|line[1..]| - 1] == line[..|line| - 1][1..];
      FirstLine(line[1..], more);
    }
  }

  lemma {:induction false} LineAhead(s: Bytes)
    requires !NoNewline(s)
    ensures IsLine(s[..LineLength(s)])
  {
    if s[0] == NL {
      assert s[..1] == [NL];
    } else {
      var t := s[1..];
      var i :| 0 <= i < |s| && s[i] == NL;
      assert t[i - 1] == NL;
      LineAhead(t);
      var n := LineLength(t);
      assert s[..n + 1] == [s[0]] + t[..n];
      assert s[..n + 1][..n] == [s[0]] + t[..n][..n - 1];
    }
  }

  lemma LinesCons(line: Bytes, more: Bytes)
    requires IsLine(line)
    ensures Lines(line + more) == [line] + Lines(more)
    ensures Rest(line + more) == Rest(more)
  {
    FirstLine(line, more);
  }

  /** An input without a newline, or its first line and the remainder. */
  lemma Split(s: Bytes) returns (line: Bytes, more: Bytes)
    requires !NoNewline(s)
    ensures IsLine(line) && s == line + more
    ensures Lines(s) == [line] + Lines(more) && Rest(s) == Rest(more)
  {
    LineAhead(s);
    line, more := s[..LineLength(s)], s[LineLength(s)..];
    assert s == line + more;
    LinesCons(line, more);
  }

  lemma Assoc(a: Bytes, b: Bytes, c: Bytes)
    ensures a + b + c == a + (b + c)
  {
  }

  /** Nothing is lost or invented: the lines and the rest are the input, cut after each newline. */
  lemma {:induction false} LinesPartition(s: Bytes)
    ensures Flatten(Lines(s)) + Rest(s) == s
    ensures AllLines(Lines(s)) && NoNewline(Rest(s))
    decreases |s|
  {
    if NoNewline(s) {
    } else {
      var line, more := Split(s);
      LinesPartition(more);
      FlattenCons(line, Lines(more));
      Assoc(line, Flatten(Lines(more)), Rest(more));
    }
  }

  lemma FlattenCons(line: Bytes, lines: seq<Bytes>)
    ensures Flatten([line] + lines) == line + Flatten(lines)
  {
    assert ([line] + lines)[1..] == lines;
  }

  lemma FrontAssoc(line: Bytes, u: seq<Bytes>, v: seq<Bytes>)
    ensures [line] + (u + v) == [line] + u + v
  {
  }

  /** Cutting a longer input is cutting the first part and then its rest with the second. */
  lemma {:induction false} LinesAppend(a: Bytes, b: Bytes)
    ensures Lines(a + b) == Lines(a) + Lines(Rest(a) + b)
    ensures Rest(a + b) == Rest(Rest(a) + b)
    decreases |a|
  {
    if NoNewline(a) {
      assert Rest(a) == a && Lines(a) == [];
    } else {
      var line, more := Split(a);
      LinesAppend(more, b);
      assert a + b == line + (more + b);
      LinesCons(line, more + b);
      FrontAssoc(line, Lines(more), Lines(Rest(more) + b));
    }
  }

  /** After whole lines, further input is cut by itself. */
  lemma LinesAfterLines(a: Bytes, b: Bytes)
    requires Rest(a) == []
    ensures Lines(a + b) == Lines(a) + Lines(b) && Rest(a + b) == Rest(b)
  {
    LinesAppend(a, b);
    assert Rest(a) + b == b;
  }

  lemma {:induction false} LinesOfLines(lines: seq<Bytes>)
    requires AllLines(lines)
    ensures Lines(Flatten(lines)) == lines && Rest(Flatten(lines)) == []
  {
    if lines != [] {
      LinesOfLines(lines[1..]);
      LinesCons(lines[0], Flatten(lines[1..]));
    }
  }

  // ---------------------------------------------------------------- the follower

  /** Where a freshly opened file is first read. */
  function OpenAt(data: Bytes, backfill: nat): (p: nat)
    ensures p <= |data|
  {
    if backfill == 0 then |data|
    else if |data| > backfill then |data| - backfill + LineLength(data[|data| - backfill..])
    else 0
  }

  /** Where a follower stands: nowhere, or behind the last line it returned of a file. */
  datatype Handle = Closed | At(inode: nat, pos: nat)

  /** Where the next poll starts to read. */
  function StartIn(h: Handle, backfill: nat, file: File): (p: nat)
    ensures p <= |file.data|
  {
    match h
    case Closed => OpenAt(file.data, backfill)
    case At(inode, pos) => if inode != file.inode || |file.data| < pos then 0 else pos
  }

  lemma RestIsShorter(s: Bytes)
    ensures |Rest(s)| <= |s|
  {
    LinesPartition(s);
  }

  /** What a poll leaves and returns. */
  function Polled(h: Handle, backfill: nat, disk: Option<File>): (r: (Handle, seq<Bytes>)) {
    match disk
    case None => (Closed, [])
    case Some(file) =>
      var ahead := file.data[StartIn(h, backfill, file)..];
      RestIsShorter(ahead);
      (At(file.inode, |file.data| - |Rest(ahead)|), Lines(ahead))
  }

  class Follower {
    var isOpen: bool
    var inode: nat
    var pos: nat          // end of the last line returned
    var offset: nat       // where the file handle stands
    const backfill: nat

    predicate Valid()
      reads this
    {
      isOpen ==> offset == pos
    }

    constructor (backfill: nat)
      ensures Valid() && !isOpen && this.backfill == backfill
    {
      this.backfill := backfill;
      isOpen, inode, pos, offset := false, 0, 0, 0;
    }

    function Now(): Handle
      reads this
    {
      if isOpen then At(inode, pos) else Closed
    }

    method Open(disk: Option<File>)
      modifies this
      ensures Valid() && isOpen == disk.Some?
      ensures disk.Some? ==> inode == disk.value.inode && pos == OpenAt(disk.value.data, backfill)
    {
      if disk.None? {
        isOpen, inode, pos := false, 0, 0;
        return;
      }
      var data := disk.value.data;
      isOpen, inode := true, disk.value.inode;
      if backfill != 0 {
        if |data| > backfill {
          offset := |data| - backfill;
          offset := offset + LineLength(data[offset..]);
        } else {
          offset := 0;
        }
      } else {
        offset := |data|;
      }
      pos := offset;
    }

    /**
      The new complete lines, in every rotation mode: from the last position while the same file only
      grew, and from its head after a truncation or under a new inode.
    */
    method Poll(disk: Option<File>) returns (lines: seq<Bytes>)
      requires Valid()
      modifies this
      ensures Valid() && Now() == Polled(old(Now()), backfill, disk).0 && lines == Polled(old(Now()), backfill, disk).1
      ensures disk.Some? ==>
                var file := disk.value;
                var start := StartIn(old(Now()), backfill, file);
                && start <= pos <= |file.data|
                && lines == Lines(file.data[start..])
                && file.data[pos..] == Rest(file.data[start..])
                && file.data[start..pos] == Flatten(lines)
    {
      if !isOpen {
        Open(disk);
      }
      if !isOpen { return []; }
      if disk.None? {
        isOpen := false;
        return [];
      }
      var file := disk.value;
      if file.inode != inode {
        Open(disk);
        offset, pos := 0, 0;
      } else if |file.data| < pos {
        offset, pos := 0, 0;
      }
      ghost var start := StartIn(old(Now()), backfill, file);
      assert pos == start;
      var end;
      lines, end := ReadLines(file.data, pos);
      offset, pos := end, end;
      assert Now() == Polled(old(Now()), backfill, disk).0;
    }
  }

  /** The read loop: an unfinished trailing line is left to be read again. */
  method ReadLines(data: Bytes, start: nat) returns (lines: seq<Bytes>, end: nat)
    requires start <= |data|
    ensures start <= end <= |data|
    ensures lines == Lines(data[start..])
    ensures data[end..] == Rest(data[start..]) && data[start..end] == Flatten(lines)
    ensures end == |data| - |Rest(data[start..])|
  {
    lines, end := [], start;
    ghost var all, rest := Lines(data[start..]), Rest(data[start..]);
    ghost var left := data[start..];
    while end < |data|
      invariant start <= end <= |data| && left == data[end..]
      invariant all == lines + Lines(left) && rest == Rest(left)
    {
      var n := LineLength(data[end..]);
      var line := data[end..end + n];
      CutAt(data, end, n);
      if line[|line| - 1] == NL {
        ReadOne(left, all, lines);
        lines := lines + [line];
        end := end + n;
        left := left[n..];
      } else {
        NoLine(left);
        break;
      }
    }
    ReadAll(data, start, end, lines);
  }

  lemma CutAt(data: Bytes, end: nat, n: nat)
    requires end + n <= |data|
    ensures data[end..][..n] == data[end..end + n] && data[end..][n..] == data[end + n..]
  {
  }

  /** readline returned a complete line. */
  lemma ReadOne(left: Bytes, all: seq<Bytes>, lines: seq<Bytes>)
    requires left != [] && left[LineLength(left) - 1] == NL && all == lines + Lines(left)
    ensures all == lines + [left[..LineLength(left)]] + Lines(left[LineLength(left)..])
    ensures Rest(left) == Rest(left[LineLength(left)..])
  {
    var n := LineLength(left);
    assert !NoNewline(left);
    assert lines + ([left[..n]] + Lines(left[n..])) == lines + [left[..n]] + Lines(left[n..]);
  }

  /** readline returned an unfinished one. */
  lemma NoLine(left: Bytes)
    requires left != [] && left[LineLength(left) - 1] != NL
    ensures NoNewline(left)
  {
    if !NoNewline(left) {
      LineAhead(left);
    }
  }

  lemma ReadAll(data: Bytes, start: nat, end: nat, lines: seq<Bytes>)
    requires start <= end <= |data| && NoNewline(data[end..])
    requires Lines(data[start..]) == lines + Lines(data[end..]) && Rest(data[start..]) == Rest(data[end..])
    ensures lines == Lines(data[start..]) && data[end..] == Rest(data[start..])
    ensures data[start..end] == Flatten(lines) && end == |data| - |Rest(data[start..])|
  {
    var input, rest := data[start..], data[end..];
    LinesPartition(input);
    assert Rest(rest) == rest && Lines(rest) == [];
    assert lines + [] == lines;
    assert input == data[start..end] + rest;
    SameFront(data[start..end], Flatten(lines), rest);
  }

  lemma SameFront(a: Bytes, b: Bytes, c: Bytes)
    requires a + c == b + c
    ensures a == b
  {
    assert |a + c| == |b + c|;
    assert a == (a + c)[..|a|] && b == (b + c)[..|b|];
  }

  // ---------------------------------------------------------------- what a poll returns

  /** Behind the first line of an input lie its other lines. */
  lemma BehindFirstLine(s: Bytes)
    requires !NoNewline(s)
    ensures Lines(s) != [] && Lines(s[LineLength(s)..]) == Lines(s)[1..] && Rest(s[LineLength(s)..]) == Rest(s)
  {
  }

  lemma WholeInputWithoutNewline(s: Bytes)
    requires NoNewline(s)
    ensures LineLength(s) == |s|
  {
    if s != [] { WholeInputWithoutNewline(s[1..]); }
  }

  lemma PolledFrom(h: Handle, backfill: nat, file: File, start: nat, ahead: Bytes)
    requires StartIn(h, backfill, file) == start <= |file.data| && ahead == file.data[start..]
    ensures |Rest(ahead)| <= |file.data|
    ensures Polled(h, backfill, Some(file)) == (At(file.inode, |file.data| - |Rest(ahead)|), Lines(ahead))
  {
    RestIsShorter(ahead);
  }

  /** The first poll without backfill returns nothing and goes to the end. */
  lemma FirstPollAtEnd(file: File)
    ensures Polled(Closed, 0, Some(file)) == (At(file.inode, |file.data|), [])
  {
    PolledFrom(Closed, 0, file, |file.data|, []);
  }

  /** A file no longer than the backfill is read whole. */
  lemma FirstPollOfShort(file: File, backfill: nat)
    requires 0 < backfill && |file.data| <= backfill
    ensures |Rest(file.data)| <= |file.data|
    ensures Polled(Closed, backfill, Some(file)) == (At(file.inode, |file.data| - |Rest(file.data)|), Lines(file.data))
  {
    assert file.data[0..] == file.data;
    PolledFrom(Closed, backfill, file, 0, file.data);
  }

  /** Of a longer one the lines within the last backfill bytes are read, without the one they begin in. */
  lemma FirstPollOfLong(file: File, backfill: nat, tail: Bytes)
    requires 0 < backfill < |file.data| && tail == file.data[|file.data| - backfill..]
    ensures var (handle, lines) := Polled(Closed, backfill, Some(file));
            && handle.At? && handle.inode == file.inode
            && (NoNewline(tail) ==> lines == [] && handle.pos == |file.data|)
            && (!NoNewline(tail) ==>
                  Lines(tail) != [] && lines == Lines(tail)[1..] && handle.pos == |file.data| - |Rest(tail)|)
  {
    var from, n := |file.data| - backfill, LineLength(tail);
    CutAt(file.data, from, n);
    PolledFrom(Closed, backfill, file, from + n, tail[n..]);
    if NoNewline(tail) {
      WholeInputWithoutNewline(tail);
      assert tail[n..] == [];
    } else {
      BehindFirstLine(tail);
    }
  }

  /** The next poll of a file that only grew returns the lines behind the position. */
  lemma NextPollOfGrown(file: File, pos: nat, backfill: nat, ahead: Bytes)
    requires pos <= |file.data| && ahead == file.data[pos..]
    ensures |Rest(ahead)| <= |file.data|
    ensures Polled(At(file.inode, pos), backfill, Some(file)) == (At(file.inode, |file.data| - |Rest(ahead)|), Lines(ahead))
  {
    PolledFrom(At(file.inode, pos), backfill, file, pos, ahead);
  }

  /** A file that is another one, or shorter than the position, is read whole. */
  lemma NextPollOfOther(file: File, inode: nat, pos: nat, backfill: nat)
    requires inode != file.inode || |file.data| < pos
    ensures |Rest(file.data)| <= |file.data|
    ensures Polled(At(inode, pos), backfill, Some(file)) == (At(file.inode, |file.data| - |Rest(file.data)|), Lines(file.data))
    ensures Polled(At(inode, pos), backfill, None) == (Closed, [])
  {
    assert file.data[0..] == file.data;
    PolledFrom(At(inode, pos), backfill, file, 0, file.data);
  }

  // ---------------------------------------------------------------- between rotations

  datatype Event = Append(bytes: Bytes) | Poll

  /** The file from where the follower started: up to its position, after it, and every line returned. */
  datatype Tail = Tail(read: Bytes, unread: Bytes, emitted: seq<Bytes>)

  function Step(t: Tail, e: Event): Tail {
    match e
    case Append(bytes) => t.(unread := t.unread + bytes)
    case Poll =>
      var lines := Lines(t.unread);
      Tail(t.read + Flatten(lines), Rest(t.unread), t.emitted + lines)
  }

  function After(t: Tail, es: seq<Event>): Tail
    decreases |es|
  {
    if es == [] then t else After(Step(t, es[0]), es[1..])
  }

  function Brought(e: Event): Bytes { if e.Append? then e.bytes else [] }

  function Appended(es: seq<Event>): Bytes { if es == [] then [] else Brought(es[0]) + Appended(es[1..]) }

  /** What was returned is, line by line, what lies before the position. */
  ghost predicate Follows(t: Tail) { AllLines(t.emitted) && Flatten(t.emitted) == t.read }

  lemma {:induction false} FlattenAppend(u: seq<Bytes>, v: seq<Bytes>)
    ensures Flatten(u + v) == Flatten(u) + Flatten(v)
  {
    if u == [] {
      assert u + v == v;
    } else {
      var line, more := u[0], u[1..];
      FlattenAppend(more, v);
      assert u + v == [line] + (more + v);
      FlattenCons(line, more + v);
      Assoc(line, Flatten(more), Flatten(v));
    }
  }

  /** Lines followed by other input are cut before it. */
  lemma LinesThen(lines: seq<Bytes>, more: Bytes)
    requires AllLines(lines)
    ensures Lines(Flatten(lines) + more) == lines + Lines(more) && Rest(Flatten(lines) + more) == Rest(more)
  {
    LinesOfLines(lines);
    LinesAfterLines(Flatten(lines), more);
  }

  lemma StepFollows(t: Tail, e: Event)
    requires Follows(t)
    ensures Follows(Step(t, e))
    ensures var u := Step(t, e); u.read + u.unread == t.read + t.unread + Brought(e)
    ensures var u := Step(t, e); e.Poll? ==> u.emitted == Lines(u.read + u.unread) && NoNewline(u.unread)
  {
    match e
    case Append(bytes) =>
      assert t.read + (t.unread + bytes) == t.read + t.unread + bytes;
    case Poll =>
      LinesPartition(t.unread);
      FlattenAppend(t.emitted, Lines(t.unread));
      LinesThen(t.emitted, t.unread);
      Assoc(t.read, Flatten(Lines(t.unread)), Rest(t.unread));
  }

  /**
    However appends and polls interleave: what was returned makes up the file up to the position, and
    after a poll it is every complete line the file has, each once and in order, so the schedule of
    the polls does not show.
  */
  lemma {:induction false} ExactlyOnce(t: Tail, es: seq<Event>)
    requires Follows(t)
    ensures var u := After(t, es); Follows(u) && u.read + u.unread == t.read + t.unread + Appended(es)
    ensures var u := After(t, es);
            es != [] && es[|es| - 1].Poll? ==> u.emitted == Lines(u.read + u.unread) && NoNewline(u.unread)
    decreases |es|
  {
    if es != [] {
      StepFollows(t, es[0]);
      ExactlyOnce(Step(t, es[0]), es[1..]);
      Assoc(t.read + t.unread, Brought(es[0]), Appended(es[1..]));
    }
  }

  // ---------------------------------------------------------------- across rotations

  /** The file on disk, the follower and every line it has returned. */
  datatype World = World(disk: Option<File>, handle: Handle, emitted: seq<Bytes>)

  function Changed(w: World, e: Event, backfill: nat): World {
    match e
    case Append(bytes) =>
      if w.disk.None? then w else w.(disk := Some(w.disk.value.(data := w.disk.value.data + bytes)))
    case Poll =>
      var (handle, lines) := Polled(w.handle, backfill, w.disk);
      World(w.disk, handle, w.emitted + lines)
  }

  /** What happens to one file, from when it appears or is cut until it is replaced or cut again. */
  function Run(w: World, es: seq<Event>, backfill: nat): World
    decreases |es|
  {
    if es == [] then w else Run(Changed(w, es[0], backfill), es[1..], backfill)
  }

  /** The follower is reading this file: the tail is what lies behind a skipped beginning. */
  ghost predicate Tied(w: World, t: Tail, skipped: Bytes, before: seq<Bytes>) {
    && w.disk.Some? && w.disk.value.data == skipped + t.read + t.unread
    && w.handle == At(w.disk.value.inode, |skipped + t.read|)
    && w.emitted == before + t.emitted
  }

  lemma PollTied(file: File, t: Tail, skipped: Bytes, backfill: nat)
    requires file.data == skipped + t.read + t.unread
    ensures var u := Step(t, Poll);
            && Polled(At(file.inode, |skipped + t.read|), backfill, Some(file))
                 == (At(file.inode, |skipped + u.read|), Lines(t.unread))
            && file.data == skipped + u.read + u.unread
  {
    assert file.data[|skipped + t.read|..] == t.unread;
    LinesPartition(t.unread);
    var done := Flatten(Lines(t.unread));
    Assoc(skipped, t.read, done);
    Assoc(skipped + t.read, done, Rest(t.unread));
  }

  lemma StepTied(w: World, t: Tail, skipped: Bytes, before: seq<Bytes>, e: Event, backfill: nat)
    requires Tied(w, t, skipped, before)
    ensures Tied(Changed(w, e, backfill), Step(t, e), skipped, before)
  {
    match e
    case Append(bytes) => Assoc(skipped + t.read, t.unread, bytes);
    case Poll =>
      PollTied(w.disk.value, t, skipped, backfill);
      assert before + t.emitted + Lines(t.unread) == before + (t.emitted + Lines(t.unread));
  }

  lemma {:induction false} RunTied(w: World, t: Tail, skipped: Bytes, before: seq<Bytes>, es: seq<Event>, backfill: nat)
    requires Tied(w, t, skipped, before)
    ensures Tied(Run(w, es, backfill), After(t, es), skipped, before)
    decreases |es|
  {
    if es != [] {
      StepTied(w, t, skipped, before, es[0], backfill);
      RunTied(Changed(w, es[0], backfill), Step(t, es[0]), skipped, before, es[1..], backfill);
    }
  }

  function Begun(ahead: Bytes): Tail { Step(Tail([], ahead, []), Poll) }

  lemma BegunSplits(skipped: Bytes, ahead: Bytes)
    ensures var t := Begun(ahead);
            && skipped + ahead == skipped + t.read + t.unread && t.emitted == Lines(ahead)
            && |skipped + t.read| == |skipped + ahead| - |Rest(ahead)|
  {
    LinesPartition(ahead);
    assert [] + Flatten(Lines(ahead)) == Flatten(Lines(ahead)) && [] + Lines(ahead) == Lines(ahead);
    Assoc(skipped, Flatten(Lines(ahead)), Rest(ahead));
  }

  /** The first poll of a file, wherever the follower stood, begins a tail behind its starting point. */
  lemma FirstPollTied(w: World, backfill: nat)
    requires w.disk.Some?
    ensures var data, start := w.disk.value.data, StartIn(w.handle, backfill, w.disk.value);
            Tied(Changed(w, Poll, backfill), Begun(data[start..]), data[..start], w.emitted)
  {
    var data, start := w.disk.value.data, StartIn(w.handle, backfill, w.disk.value);
    BegunSplits(data[..start], data[start..]);
    assert data == data[..start] + data[start..];
  }

  lemma BegunFollows(ahead: Bytes)
    ensures var t := Begun(ahead); Follows(t) && t.read + t.unread == ahead && t.emitted == Lines(ahead)
  {
    StepFollows(Tail([], ahead, []), Poll);
    assert [] + ahead == ahead && [] + Lines(ahead) == Lines(ahead);
  }

  // ---------------------------------------------------------------- one file's life

  predicate HasPoll(es: seq<Event>) { es != [] && (es[0].Poll? || HasPoll(es[1..])) }

  /** What is appended before the first poll, before the last poll, and after it. */
  function Early(es: seq<Event>): Bytes {
    if es == [] || es[0].Poll? then [] else es[0].bytes + Early(es[1..])
  }

  function Seen(es: seq<Event>): Bytes { if !HasPoll(es) then [] else Brought(es[0]) + Seen(es[1..]) }

  function Late(es: seq<Event>): Bytes { if !HasPoll(es) then Appended(es) else Late(es[1..]) }

  lemma {:induction false} SeenThenLate(es: seq<Event>)
    ensures Seen(es) + Late(es) == Appended(es)
  {
    if HasPoll(es) {
      SeenThenLate(es[1..]);
      Assoc(Brought(es[0]), Seen(es[1..]), Late(es[1..]));
    } else {
      assert [] + Appended(es) == Appended(es);
    }
  }

  lemma {:induction false} EarlyWithinSeen(es: seq<Event>)
    requires HasPoll(es)
    ensures |Early(es)| <= |Seen(es)|
  {
    if !es[0].Poll? { EarlyWithinSeen(es[1..]); }
  }

  /** The polls of a tail return, in all, every line that is complete by the last of them. */
  lemma {:induction false} SeenReturned(t: Tail, es: seq<Event>)
    requires Follows(t)
    ensures Follows(After(t, es))
    ensures After(t, es).emitted == if HasPoll(es) then Lines(t.read + t.unread + Seen(es)) else t.emitted
    decreases |es|
  {
    if es != [] {
      StepFollows(t, es[0]);
      SeenReturned(Step(t, es[0]), es[1..]);
      if HasPoll(es[1..]) {
        Assoc(t.read + t.unread, Brought(es[0]), Seen(es[1..]));
      } else if es[0].Poll? {
        assert Seen(es) == [] && t.read + t.unread + [] == t.read + t.unread;
      }
    }
  }

  /** A file's life, from when it appears or is cut until it is replaced or cut again; None if there is no file. */
  datatype Life = Life(disk: Option<File>, es: seq<Event>)

  /** The file at its first poll. */
  function FirstSeen(file: File, es: seq<Event>): File { File(file.inode, file.data + Early(es)) }

  /** Where a life leaves a follower, and the lines it adds: those behind the starting point of its first poll, complete by its last. */
  function Outcome(h: Handle, backfill: nat, life: Life): (Handle, seq<Bytes>) {
    if !HasPoll(life.es) then (h, [])
    else
      match life.disk
      case None => (Closed, [])
      case Some(file) =>
        EarlyWithinSeen(life.es);
        var ahead := (file.data + Seen(life.es))[StartIn(h, backfill, FirstSeen(file, life.es))..];
        RestIsShorter(ahead);
        (At(file.inode, |file.data + Seen(life.es)| - |Rest(ahead)|), Lines(ahead))
  }

  lemma OutcomeAppend(h: Handle, backfill: nat, file: File, bytes: Bytes, es: seq<Event>)
    ensures Outcome(h, backfill, Life(Some(File(file.inode, file.data + bytes)), es))
              == Outcome(h, backfill, Life(Some(file), [Append(bytes)] + es))
  {
    var all := [Append(bytes)] + es;
    assert all[1..] == es;
    if HasPoll(es) {
      Assoc(file.data, bytes, Early(es));
      Assoc(file.data, bytes, Seen(es));
    }
  }

  /** A life whose first event is a poll, in terms of what is skipped and what lies ahead. */
  lemma PolledLife(w: World, skipped: Bytes, ahead: Bytes, es: seq<Event>, backfill: nat)
    requires Tied(Changed(w, Poll, backfill), Begun(ahead), skipped, w.emitted)
    ensures var u := Run(Changed(w, Poll, backfill), es, backfill);
            && u.emitted == w.emitted + Lines(ahead + Seen(es)) && w.disk.Some?
            && u.handle.At? && u.handle.inode == w.disk.value.inode
            && u.handle.pos == |skipped| + |ahead + Seen(es)| - |Rest(ahead + Seen(es))|
  {
    RunTied(Changed(w, Poll, backfill), Begun(ahead), skipped, w.emitted, es, backfill);
    BegunFollows(ahead);
    SeenReturned(Begun(ahead), es);
    if !HasPoll(es) { assert Seen(es) == [] && ahead + [] == ahead; }
    LinesPartition(ahead + Seen(es));
    InodeStays(Changed(w, Poll, backfill), es, backfill);
  }

  lemma {:induction false} InodeStays(w: World, es: seq<Event>, backfill: nat)
    requires w.disk.Some?
    ensures var u := Run(w, es, backfill); u.disk.Some? && u.disk.value.inode == w.disk.value.inode
    decreases |es|
  {
    if es != [] { InodeStays(Changed(w, es[0], backfill), es[1..], backfill); }
  }

  lemma PollFirst(w: World, es: seq<Event>, backfill: nat)
    requires w.disk.Some? && es != [] && es[0].Poll?
    ensures var u, o := Run(w, es, backfill), Outcome(w.handle, backfill, Life(w.disk, es));
            u.handle == o.0 && u.emitted == w.emitted + o.1
  {
    var file, rest := w.disk.value, es[1..];
    var start := StartIn(w.handle, backfill, file);
    FirstPollTied(w, backfill);
    PolledLife(w, file.data[..start], file.data[start..], rest, backfill);
    assert file.data + [] == file.data && FirstSeen(file, es) == file;
    assert Seen(es) == Seen(rest);
    SliceAppend(file.data, start, Seen(rest));
  }

  lemma SliceAppend(data: Bytes, start: nat, more: Bytes)
    requires start <= |data|
    ensures (data + more)[start..] == data[start..] + more && |data + more| == |data[..start]| + |data[start..] + more|
  {
  }

  /** Whatever was followed before, and whenever polls come, a file's life has exactly this outcome. */
  lemma {:induction false} LifeExactly(w: World, es: seq<Event>, backfill: nat)
    ensures var u, o := Run(w, es, backfill), Outcome(w.handle, backfill, Life(w.disk, es));
            u.handle == o.0 && u.emitted == w.emitted + o.1
    decreases |es|
  {
    if es == [] {
      assert w.emitted + [] == w.emitted;
    } else if es[0].Poll? && w.disk.Some? {
      PollFirst(w, es, backfill);
    } else {
      LifeExactly(Changed(w, es[0], backfill), es[1..], backfill);
      assert w.emitted + [] == w.emitted;
      if es[0].Append? && w.disk.Some? {
        OutcomeAppend(w.handle, backfill, w.disk.value, es[0].bytes, es[1..]);
        assert [Append(es[0].bytes)] + es[1..] == es;
      }
    }
  }

  // ---------------------------------------------------------------- over any rotations

  /** A run through any number of lives: files renamed away, cut, deleted, created. */
  function Follow(w: World, lives: seq<Life>, backfill: nat): World
    decreases |lives|
  {
    if lives == [] then w
    else Follow(Run(World(lives[0].disk, w.handle, w.emitted), lives[0].es, backfill), lives[1..], backfill)
  }

  function Returned(h: Handle, backfill: nat, lives: seq<Life>): seq<Bytes>
    decreases |lives|
  {
    if lives == [] then []
    else
      var o := Outcome(h, backfill, lives[0]);
      o.1 + Returned(o.0, backfill, lives[1..])
  }

  lemma LineAssoc(a: seq<Bytes>, b: seq<Bytes>, c: seq<Bytes>)
    ensures a + b + c == a + (b + c)
  {
  }

  /** Over any rotations the follower returns the outcomes of the lives, one after the other. */
  lemma {:induction false} HistoryExactly(w: World, lives: seq<Life>, backfill: nat)
    ensures Follow(w, lives, backfill).emitted == w.emitted + Returned(w.handle, backfill, lives)
    decreases |lives|
  {
    if lives == [] {
      assert w.emitted + [] == w.emitted;
    } else {
      var life := lives[0];
      var v := World(life.disk, w.handle, w.emitted);
      LifeExactly(v, life.es, backfill);
      HistoryExactly(Run(v, life.es, backfill), lives[1..], backfill);
      var o := Outcome(w.handle, backfill, life);
      LineAssoc(w.emitted, o.1, Returned(o.0, backfill, lives[1..]));
    }
  }

  // ---------------------------------------------------------------- which lines are lost

  function WrittenIn(life: Life): seq<Bytes> {
    match life.disk
    case None => []
    case Some(file) => Lines(file.data + Appended(life.es))
  }

  /** Every line completed in any of the lives. */
  function Written(lives: seq<Life>): seq<Bytes> {
    if lives == [] then [] else WrittenIn(lives[0]) + Written(lives[1..])
  }

  /** When a follower starts on a file from its head. */
  predicate FromHead(h: Handle, backfill: nat, file: File) {
    match h
    case Closed => file.data == [] || |file.data| <= backfill
    case At(inode, pos) => inode != file.inode || |file.data| < pos || pos == 0
  }

  /**
    A life that costs no line: it is polled, from its head unless there is nothing to return yet, and no
    line is completed after its last poll.
  */
  predicate Kept(h: Handle, backfill: nat, life: Life) {
    match life.disk
    case None => true
    case Some(file) =>
      if !HasPoll(life.es) then NoNewline(file.data + Appended(life.es))
      else
        && (FromHead(h, backfill, FirstSeen(file, life.es)) || NoNewline(file.data + Seen(life.es)))
        && NoNewline(Late(life.es))
  }

  predicate AllKept(h: Handle, backfill: nat, lives: seq<Life>)
    decreases |lives|
  {
    lives == [] || (Kept(h, backfill, lives[0]) && AllKept(Outcome(h, backfill, lives[0]).0, backfill, lives[1..]))
  }

  function Size(lines: seq<Bytes>): nat { |Flatten(lines)| }

  lemma SomeLineHasSize(s: Bytes)
    ensures Size(Lines(s)) == |s| - |Rest(s)| && (Size(Lines(s)) == 0 <==> NoNewline(s))
  {
    LinesPartition(s);
    if !NoNewline(s) {
      var line, more := Split(s);
      FlattenCons(line, Lines(more));
    }
  }

  lemma SameRest(a: Bytes, b: Bytes)
    requires !NoNewline(b)
    ensures Rest(a + b) == Rest(b) && !NoNewline(a + b)
  {
    LinesAppend(a, b);
    LinesPartition(a);
    var line, more := Split(b);
    Assoc(Rest(a), line, more);
    PrefixIsLine(Rest(a), line);
    LinesCons(Rest(a) + line, more);
    var i :| 0 <= i < |b| && b[i] == NL;
    assert (a + b)[|a| + i] == NL;
  }

  /** Skipping a beginning costs lines unless there are none. */
  lemma SkipCosts(skipped: Bytes, ahead: Bytes)
    ensures Size(Lines(ahead)) <= Size(Lines(skipped + ahead))
    ensures Size(Lines(ahead)) == Size(Lines(skipped + ahead)) <==> skipped == [] || NoNewline(skipped + ahead)
    ensures skipped == [] || NoNewline(skipped + ahead) ==> Lines(ahead) == Lines(skipped + ahead)
  {
    SomeLineHasSize(ahead);
    SomeLineHasSize(skipped + ahead);
    if skipped == [] {
      assert skipped + ahead == ahead;
    } else if !NoNewline(ahead) {
      SameRest(skipped, ahead);
    }
  }

  /** So does not polling again after a line was completed. */
  lemma LateCosts(seen: Bytes, late: Bytes)
    ensures Size(Lines(seen)) <= Size(Lines(seen + late))
    ensures Size(Lines(seen)) == Size(Lines(seen + late)) <==> NoNewline(late)
    ensures NoNewline(late) ==> Lines(seen) == Lines(seen + late)
  {
    LinesAppend(seen, late);
    LinesPartition(seen);
    var more := Rest(seen) + late;
    FlattenAppend(Lines(seen), Lines(more));
    SomeLineHasSize(more);
    if NoNewline(late) {
      assert NoNewline(more);
      assert Lines(seen) + [] == Lines(seen);
    } else {
      SameRest(Rest(seen), late);
    }
  }

  lemma FromHeadExactly(h: Handle, backfill: nat, file: File)
    ensures FromHead(h, backfill, file) <==> StartIn(h, backfill, file) == 0
  {
  }

  lemma PolledLifeKept(h: Handle, backfill: nat, file: File, es: seq<Event>)
    requires HasPoll(es)
    ensures var out, all := Outcome(h, backfill, Life(Some(file), es)).1, Lines(file.data + Appended(es));
            && Size(out) <= Size(all)
            && (Size(out) == Size(all) <==> Kept(h, backfill, Life(Some(file), es)))
            && (Kept(h, backfill, Life(Some(file), es)) ==> out == all)
  {
    EarlyWithinSeen(es);
    var start, seen := StartIn(h, backfill, FirstSeen(file, es)), file.data + Seen(es);
    FromHeadExactly(h, backfill, FirstSeen(file, es));
    assert seen == seen[..start] + seen[start..];
    SkipCosts(seen[..start], seen[start..]);
    LateCosts(seen, Late(es));
    SeenThenLate(es);
    Assoc(file.data, Seen(es), Late(es));
  }

  lemma LifeKept(h: Handle, backfill: nat, life: Life)
    ensures var out, all := Outcome(h, backfill, life).1, WrittenIn(life);
            && Size(out) <= Size(all)
            && (Size(out) == Size(all) <==> Kept(h, backfill, life))
            && (Kept(h, backfill, life) ==> out == all)
  {
    if life.disk.Some? {
      if HasPoll(life.es) {
        PolledLifeKept(h, backfill, life.disk.value, life.es);
      } else {
        SomeLineHasSize(life.disk.value.data + Appended(life.es));
      }
    }
  }

  lemma {:induction false} HistoryKept(h: Handle, backfill: nat, lives: seq<Life>)
    ensures var out, all := Returned(h, backfill, lives), Written(lives);
            && Size(out) <= Size(all)
            && (Size(out) == Size(all) <==> AllKept(h, backfill, lives))
            && (AllKept(h, backfill, lives) ==> out == all)
    decreases |lives|
  {
    if lives != [] {
      var o := Outcome(h, backfill, lives[0]);
      LifeKept(h, backfill, lives[0]);
      HistoryKept(o.0, backfill, lives[1..]);
      FlattenAppend(o.1, Returned(o.0, backfill, lives[1..]));
      FlattenAppend(WrittenIn(lives[0]), Written(lives[1..]));
    }
  }

  lemma SameTail(a: seq<Bytes>, u: seq<Bytes>, v: seq<Bytes>)
    ensures a + u == a + v <==> u == v
  {
    if a + u == a + v {
      assert u == (a + u)[|a|..] && v == (a + v)[|a|..];
    }
  }

  /**
    Over any run of appends, polls and rotations no line of any file is lost exactly if every life is
    kept: polled from its head once there is something to return, which takes another inode, fewer bytes
    than the position held or, after a gap that a poll has seen, no more than the backfill; and polled
    again after its last line was completed.
  */
  lemma NothingLostExactly(w: World, lives: seq<Life>, backfill: nat)
    ensures Follow(w, lives, backfill).emitted == w.emitted + Written(lives) <==> AllKept(w.handle, backfill, lives)
  {
    HistoryExactly(w, lives, backfill);
    HistoryKept(w.handle, backfill, lives);
    SameTail(w.emitted, Returned(w.handle, backfill, lives), Written(lives));
  }

  lemma OneLine(line: Bytes)
    requires IsLine(line)
    ensures Lines(line) == [line]
  {
    LinesOfLines([line]);
    FlattenCons(line, []);
    assert [line] + [] == [line] && line + [] == line;
  }

  lemma PolledBeforeWritten(x: Bytes)
    ensures Outcome(Closed, 0, Life(Some(File(1, [])), [Poll, Append(x)])) == (At(1, 0), [])
    ensures Appended([Poll, Append(x)]) == x
  {
    var es: seq<Event> := [Poll, Append(x)];
    assert es[1..] == [Append(x)];
    assert [Append(x)][1..] == [];
    assert !HasPoll([Append(x)]);
    assert Seen(es) == [] && Early(es) == [];
    assert Appended([Append(x)]) == x + [] == x;
    assert Appended(es) == [] + x == x;
  }

  lemma ReadFromNewInode(y: Bytes)
    requires IsLine(y)
    ensures Outcome(At(1, 0), 0, Life(Some(File(2, y)), [Poll])).1 == [y] && Appended([Poll]) == []
  {
    var es: seq<Event> := [Poll];
    assert es[1..] == [];
    assert Seen(es) == [] && Early(es) == [];
    assert y + [] == y && y[0..] == y;
    OneLine(y);
  }

  /** The ordinary rotation loses a line: x is written after the last poll, then the file is renamed away. */
  lemma RotatedLineIsLost(x: Bytes, y: Bytes)
    requires IsLine(x) && IsLine(y)
    ensures var lives := [Life(Some(File(1, [])), [Poll, Append(x)]), Life(Some(File(2, y)), [Poll])];
            Follow(World(None, Closed, []), lives, 0).emitted == [y] && Written(lives) == [x, y]
  {
    var a, b := Life(Some(File(1, [])), [Poll, Append(x)]), Life(Some(File(2, y)), [Poll]);
    PolledBeforeWritten(x);
    ReadFromNewInode(y);
    OneLine(x);
    OneLine(y);
    assert [a, b][1..] == [b] && [b][1..] == [];
    assert Returned(At(1, 0), 0, [b]) == [y] + [] && Written([b]) == [y] + [] by {
      assert y + [] == y;
    }
    assert [] + x == x;
    HistoryExactly(World(None, Closed, []), [a, b], 0);
  }

  // ---------------------------------------------------------------- is the first line whole?

  predicate AtBoundary(data: Bytes, p: nat)
    requires p <= |data|
  {
    p == 0 || data[p - 1] == NL
  }

  lemma {:induction false} RestEmptyExactly(s: Bytes)
    ensures Rest(s) == [] <==> s == [] || s[|s| - 1] == NL
    decreases |s|
  {
    if NoNewline(s) {
    } else {
      var line, more := Split(s);
      RestEmptyExactly(more);
      if more == [] { assert s == line; } else { assert s[|s| - 1] == more[|more| - 1]; }
    }
  }

  lemma PrefixIsLine(rest: Bytes, line: Bytes)
    requires NoNewline(rest) && IsLine(line)
    ensures IsLine(rest + line)
  {
    assert (rest + line)[..|rest + line| - 1] == rest + line[..|line| - 1];
  }

  lemma PrefixFirstLine(rest: Bytes, b: Bytes)
    requires NoNewline(rest) && Lines(b) != []
    ensures Lines(rest + b) == [rest + Lines(b)[0]] + Lines(b)[1..]
  {
    var line, more := Split(b);
    Assoc(rest, line, more);
    PrefixIsLine(rest, line);
    LinesCons(rest + line, more);
  }

  /**
    What is returned from a starting position on are lines of the file itself exactly if the position
    is a line boundary; otherwise the first one returned lacks the beginning of its line.
  */
  lemma WholeLinesExactly(data: Bytes, start: nat)
    requires start <= |data| && Lines(data[start..]) != []
    ensures AtBoundary(data, start) <==> Lines(data) == Lines(data[..start]) + Lines(data[start..])
    ensures var rest, lines := Rest(data[..start]), Lines(data[start..]);
            Lines(data) == Lines(data[..start]) + ([rest + lines[0]] + lines[1..])
  {
    var a, b := data[..start], data[start..];
    assert data == a + b;
    LinesAppend(a, b);
    RestEmptyExactly(a);
    LinesPartition(a);
    var rest, lines := Rest(a), Lines(b);
    PrefixFirstLine(rest, b);
    if AtBoundary(data, start) {
      assert rest + lines[0] == lines[0] && [lines[0]] + lines[1..] == lines;
    } else {
      assert (Lines(a) + lines)[|Lines(a)|] == lines[0];
      assert Lines(data)[|Lines(a)|] == rest + lines[0];
      assert |rest + lines[0]| != |lines[0]|;
    }
  }

  /** A follower opens on a boundary exactly if what it skips ends with one. */
  lemma OpensOnBoundaryExactly(data: Bytes, backfill: nat)
    ensures AtBoundary(data, OpenAt(data, backfill)) <==>
              if backfill == 0 then data == [] || data[|data| - 1] == NL
              else |data| <= backfill || !NoNewline(data[|data| - backfill..])
  {
    if 0 < backfill < |data| {
      var p := |data| - backfill;
      var n := LineLength(data[p..]);
      assert data[p + n - 1] == data[p..][n - 1];
      if !NoNewline(data[p..]) { LineAhead(data[p..]); }
    }
  }

  /** The first line of a poll is whole exactly if the poll starts on a boundary. */
  lemma FirstLineWholeExactly(h: Handle, backfill: nat, file: File)
    requires Polled(h, backfill, Some(file)).1 != []
    ensures var start := StartIn(h, backfill, file);
            AtBoundary(file.data, start) <==> Lines(file.data) == Lines(file.data[..start]) + Polled(h, backfill, Some(file)).1
  {
    WholeLinesExactly(file.data, StartIn(h, backfill, file));
  }

  /** It does so unless the follower opens within a line, or finds no boundary at the position it held in a file cut and grown again. */
  lemma StartsOnBoundaryExactly(h: Handle, backfill: nat, file: File)
    ensures AtBoundary(file.data, StartIn(h, backfill, file)) <==>
              match h
              case Closed =>
                if backfill == 0 then file.data == [] || file.data[|file.data| - 1] == NL
                else |file.data| <= backfill || !NoNewline(file.data[|file.data| - backfill..])
              case At(inode, pos) => inode != file.inode || |file.data| < pos || AtBoundary(file.data, pos)
  {
    if h == Closed { OpensOnBoundaryExactly(file.data, backfill); }
  }
}
