/**
  The nginx deny map: how a set of tags is printed, and how the file is read back at startup.
  The reader's pattern is written out; text is a sequence of code points.
*/
module DenyMap {
  import opened Wrappers
  import opened Text

  const NL := '\n'
  const QUOTE := '"'

  predicate IsTagChar(c: char) {
    'A' <= c <= 'Z' || 'a' <= c <= 'z' || '0' <= c <= '9' || c == '_' || c == '-'
  }

  predicate IsTag(s: string) { s != "" && forall i :: 0 <= i < |s| ==> IsTagChar(s[i]) }

  // ---------------------------------------------------------------- printing

  /** The stripped, nonempty tags, each once, sorted. */
  function Cleaned(tags: seq<string>): (r: seq<string>)
    ensures forall x :: x in r <==> Cleans(tags, x)
  {
    if tags == [] then []
    else
      var init, t := tags[..|tags| - 1], Strip(tags[|tags| - 1]);
      assert tags == init + [tags[|tags| - 1]];
      if t == "" then Cleaned(init) else Insert(Cleaned(init), t)
  }

  /** Some tag strips to x. */
  predicate Cleans(tags: seq<string>, x: string) { x != "" && exists t :: t in tags && Strip(t) == x }

  lemma {:induction false} CleanedAscending(tags: seq<string>)
    ensures Ascending(Cleaned(tags))
  {
    if tags != [] {
      var init := tags[..|tags| - 1];
      CleanedAscending(init);
      InsertAscending(Cleaned(init), Strip(tags[|tags| - 1]));
    }
  }

  function Line(t: string): string { [QUOTE] + t + "\" 1;\n" }

  function Lines(tags: seq<string>): string { if tags == [] then "" else Line(tags[0]) + Lines(tags[1..]) }

  function Render(tags: seq<string>): string {
    var body := Lines(Cleaned(tags));
    if body == "" then "# none\n" else body
  }

  lemma LinesOf(s: string, t: string)
    ensures Lines([t]) == Line(t) && Lines([s, t]) == Line(s) + Line(t)
  {
    var one, two := [t], [s, t];
    assert one[1..] == [] && two[1..] == one;
    assert Line(t) + "" == Line(t);
  }

  lemma CleanedOf(a: string, b: string)
    requires Strip(a) != "" && Less(Strip(a), Strip(b))
    ensures Cleaned([b, a]) == [Strip(a), Strip(b)]
  {
    var two, one := [b, a], [b];
    assert two[..1] == one && one[..0] == [];
    assert Cleaned(one) == [Strip(b)];
  }

  /** How the text looks: for no tag, and for two. */
  lemma RenderLooksLike(a: string, b: string)
    requires Strip(a) != "" && Less(Strip(a), Strip(b))
    ensures Render([]) == "# none\n"
    ensures Render([b, a]) == "\"" + Strip(a) + "\" 1;\n" + ("\"" + Strip(b) + "\" 1;\n")
  {
    CleanedOf(a, b);
    LinesOf(Strip(a), Strip(b));
  }

  /** What is printed depends on nothing but which nonempty tags there are after stripping. */
  lemma RenderDependsOnSet(tags: seq<string>, other: seq<string>)
    requires forall x :: Cleans(tags, x) <==> Cleans(other, x)
    ensures Render(tags) == Render(other)
  {
    CleanedAscending(tags);
    CleanedAscending(other);
    AscendingUnique(Cleaned(tags), Cleaned(other));
  }

  // ---------------------------------------------------------------- reading

  /** ^"([A-Za-z0-9_-]+)"\s+1; matches the first n characters of s and captures tag. */
  ghost predicate Matches(s: string, tag: string, n: nat) {
    n <= |s| && IsTag(tag) && exists sp :: sp != "" && AllSpace(sp) && s[..n] == [QUOTE] + tag + [QUOTE] + sp + "1;"
  }

  function TagRun(s: string): (n: nat)
    ensures n <= |s| && forall i :: 0 <= i < n ==> IsTagChar(s[i])
    ensures n < |s| ==> !IsTagChar(s[n])
  {
    if s == "" || !IsTagChar(s[0]) then 0 else 1 + TagRun(s[1..])
  }

  function SpaceRun(s: string): (n: nat)
    ensures n <= |s| && forall i :: 0 <= i < n ==> IsSpace(s[i])
    ensures n < |s| ==> !IsSpace(s[n])
  {
    if s == "" || !IsSpace(s[0]) then 0 else 1 + SpaceRun(s[1..])
  }

  /** The match at the front of s.  Neither run can usefully be shorter, so there is no backtracking. */
  function MatchAt(s: string): (r: Option<(string, nat)>)
    ensures r.Some? ==> 0 < r.value.1 <= |s|
  {
    if s == "" || s[0] != QUOTE then None
    else
      var n := TagRun(s[1..]);
      var m := 1 + n;
      if n == 0 || m == |s| || s[m] != QUOTE then None
      else
        var w := SpaceRun(s[m + 1..]);
        var e := m + 1 + w;
        if w == 0 || |s| < e + 2 || s[e] != '1' || s[e + 1] != ';' then None
        else Some((s[1..m], e + 2))
  }

  lemma MatchSound(s: string)
    requires MatchAt(s).Some?
    ensures Matches(s, MatchAt(s).value.0, MatchAt(s).value.1)
  {
    var m := 1 + TagRun(s[1..]);
    var w := SpaceRun(s[m + 1..]);
    var e := m + 1 + w;
    var sp := s[m + 1..e];
    assert s[1..][..m - 1] == s[1..m] && s[m + 1..][..w] == sp;
    assert s[..e + 2] == [QUOTE] + s[1..m] + [QUOTE] + sp + "1;";
  }

  lemma RunsAre(s: string, tag: string, sp: string, more: string)
    requires IsTag(tag) && sp != "" && AllSpace(sp) && s == [QUOTE] + tag + [QUOTE] + sp + "1;" + more
    ensures TagRun(s[1..]) == |tag| && SpaceRun(s[|tag| + 2..]) == |sp|
  {
    var m := |tag|;
    assert s[1..][m] == QUOTE;
    forall i | 0 <= i < m ensures s[1..][i] == tag[i] {}
    var t := s[m + 2..];
    assert t[|sp|] == '1';
    forall i | 0 <= i < |sp| ensures t[i] == sp[i] {}
  }

  lemma MatchComplete(s: string, tag: string, sp: string, more: string)
    requires IsTag(tag) && sp != "" && AllSpace(sp) && s == [QUOTE] + tag + [QUOTE] + sp + "1;" + more
    ensures MatchAt(s) == Some((tag, |tag| + |sp| + 4))
  {
    RunsAre(s, tag, sp, more);
    assert s[1..|tag| + 1] == tag;
  }

  /** The scan finds the pattern's match, and there is only that one. */
  lemma MatchExactly(s: string, tag: string, n: nat)
    ensures MatchAt(s) == Some((tag, n)) <==> Matches(s, tag, n)
  {
    if MatchAt(s).Some? {
      MatchSound(s);
    }
    if Matches(s, tag, n) {
      var sp :| sp != "" && AllSpace(sp) && s[..n] == [QUOTE] + tag + [QUOTE] + sp + "1;";
      assert s == s[..n] + s[n..];
      MatchComplete(s, tag, sp, s[n..]);
    }
  }

  /** findall from here on; atStart says whether a line starts here. */
  function Scan(s: string, atStart: bool): seq<string>
    decreases |s|
  {
    if s == "" then []
    else if atStart && MatchAt(s).Some? then
      var (tag, n) := MatchAt(s).value;
      [tag] + Scan(s[n..], s[n - 1] == NL)
    else Scan(s[1..], s[0] == NL)
  }

  ghost predicate LineStart(s: string, atStart: bool, i: nat)
    requires i <= |s|
  {
    if i == 0 then atStart else s[i - 1] == NL
  }

  /** The pattern matches at the start of a line, i characters on. */
  ghost predicate Found(s: string, atStart: bool, tag: string, i: nat, n: nat) {
    i <= |s| && LineStart(s, atStart, i) && Matches(s[i..], tag, n)
  }

  ghost predicate FoundSomewhere(s: string, atStart: bool, tag: string) { exists i: nat, n: nat :: Found(s, atStart, tag, i, n) }

  lemma FoundLater(s: string, atStart: bool, tag: string, k: nat)
    requires 0 < k <= |s| && forall i: nat, n: nat :: i < k ==> !Found(s, atStart, tag, i, n)
    ensures FoundSomewhere(s, atStart, tag) <==> FoundSomewhere(s[k..], s[k - 1] == NL, tag)
  {
    if i: nat, n: nat :| Found(s, atStart, tag, i, n) {
      assert s[i..] == s[k..][i - k..];
      assert Found(s[k..], s[k - 1] == NL, tag, i - k, n);
    }
    var rest, starts := s[k..], s[k - 1] == NL;
    if i: nat, n: nat :| Found(rest, starts, tag, i, n) {
      assert s[k + i..] == s[k..][i..];
      assert Found(s, atStart, tag, k + i, n);
    }
  }

  lemma StartsWithQuote(s: string, tag: string, n: nat)
    requires Matches(s, tag, n)
    ensures s != "" && s[0] == QUOTE
  {
    assert s[..n][0] == QUOTE;
  }

  lemma NotFoundAt(s: string, tag: string)
    requires s == "" || s[0] != QUOTE
    ensures forall n: nat :: !Matches(s, tag, n)
  {
    forall n: nat ensures Matches(s, tag, n) ==> s != "" && s[0] == QUOTE {
      if Matches(s, tag, n) { StartsWithQuote(s, tag, n); }
    }
  }

  /** No line that starts within a match holds another one. */
  lemma NothingWithin(s: string, tag: string, n: nat, other: string, i: nat)
    requires Matches(s, tag, n) && 0 < i < n && s[i - 1] == NL
    ensures forall m: nat :: !Matches(s[i..], other, m)
  {
    var sp :| sp != "" && AllSpace(sp) && s[..n] == [QUOTE] + tag + [QUOTE] + sp + "1;";
    assert s[i - 1] == s[..n][i - 1] && s[i] == s[..n][i];
    assert forall k :: 0 <= k < |tag| ==> s[..n][k + 1] == tag[k];
    assert s[..n][|tag| + 1] == QUOTE;
    assert forall k :: 0 <= k < |sp| ==> s[..n][k + |tag| + 2] == sp[k];
    if i >= |tag| + 2 { NotFoundAt(s[i..], other); }
  }

  lemma AfterMatch(s: string, atStart: bool, tag: string, n: nat, other: string)
    requires Matches(s, tag, n) && other != tag
    ensures 0 < n <= |s| && forall i: nat, m: nat :: i < n ==> !Found(s, atStart, other, i, m)
  {
    MatchExactly(s, tag, n);
    forall i: nat, m: nat | i < n ensures !Found(s, atStart, other, i, m) {
      if i == 0 {
        assert s[0..] == s;
        MatchExactly(s, other, m);
      } else if s[i - 1] == NL {
        NothingWithin(s, tag, n, other, i);
      }
    }
  }

  lemma FoundHere(s: string, t: string, n: nat, tag: string)
    requires Matches(s, t, n) && 0 < n <= |s|
    ensures FoundSomewhere(s, true, tag) <==> tag == t || FoundSomewhere(s[n..], s[n - 1] == NL, tag)
  {
    if t == tag {
      assert s[0..] == s && Found(s, true, tag, 0, n);
    } else {
      AfterMatch(s, true, t, n, tag);
      FoundLater(s, true, tag, n);
    }
  }

  lemma FoundNotHere(s: string, atStart: bool, tag: string)
    requires s != "" && (atStart ==> MatchAt(s).None?)
    ensures FoundSomewhere(s, atStart, tag) <==> FoundSomewhere(s[1..], s[0] == NL, tag)
  {
    forall n: nat ensures !Found(s, atStart, tag, 0, n) {
      assert s[0..] == s;
      MatchExactly(s, tag, n);
    }
    FoundLater(s, atStart, tag, 1);
  }

  /** The scan lists exactly the tags that the pattern matches at the start of some line. */
  lemma {:induction false} ScanExactly(s: string, atStart: bool, tag: string)
    ensures tag in Scan(s, atStart) <==> FoundSomewhere(s, atStart, tag)
    decreases |s|
  {
    if s == "" {
      forall i: nat, n: nat ensures !Found(s, atStart, tag, i, n) { NotFoundAt(s[0..], tag); }
    } else if atStart && MatchAt(s).Some? {
      var (t, n) := MatchAt(s).value;
      MatchSound(s);
      ScanExactly(s[n..], s[n - 1] == NL, tag);
      FoundHere(s, t, n, tag);
    } else {
      ScanExactly(s[1..], s[0] == NL, tag);
      FoundNotHere(s, atStart, tag);
    }
  }

  /** The tags blocked at startup. */
  function Read(s: string): set<string> { set t | t in Scan(s, true) }

  lemma {:induction false} ReadsTags(s: string, atStart: bool)
    ensures forall t :: t in Scan(s, atStart) ==> IsTag(t)
    decreases |s|
  {
    if s == "" {
    } else if atStart && MatchAt(s).Some? {
      MatchSound(s);
      ReadsTags(s[MatchAt(s).value.1..], s[MatchAt(s).value.1 - 1] == NL);
    } else {
      ReadsTags(s[1..], s[0] == NL);
    }
  }

  lemma ScanLine(t: string, more: string)
    requires IsTag(t)
    ensures Scan(Line(t) + more, true) == [t] + Scan(more, true)
  {
    var s, n := Line(t) + more, |t| + 5;
    assert s[..n] == [QUOTE] + t + [QUOTE] + " " + "1;";
    assert Matches(s, t, n);
    MatchExactly(s, t, n);
    assert s[n..] == [NL] + more && s[n - 1] == ';';
    assert s[n..][1..] == more;
  }

  lemma {:induction false} ScanLines(tags: seq<string>)
    requires forall t :: t in tags ==> IsTag(t)
    ensures Scan(Lines(tags), true) == tags
  {
    if tags != [] {
      ScanLine(tags[0], Lines(tags[1..]));
      ScanLines(tags[1..]);
    }
  }

  lemma ScanNone()
    ensures Scan("# none\n", true) == []
  {
    assert "# none\n"[1..] == " none\n" && " none\n"[1..] == "none\n" && "none\n"[1..] == "one\n";
    assert "one\n"[1..] == "ne\n" && "ne\n"[1..] == "e\n" && "e\n"[1..] == "\n" && "\n"[1..] == "";
    assert Scan("e\n", false) == [];
    assert Scan("ne\n", false) == [];
    assert Scan("one\n", false) == [];
    assert Scan("none\n", false) == [];
  }

  lemma ScanRender(tags: seq<string>)
    requires forall t :: t in Cleaned(tags) ==> IsTag(t)
    ensures Scan(Render(tags), true) == Cleaned(tags)
  {
    ScanLines(Cleaned(tags));
    ScanNone();
  }

  /** For tags that fit the pattern the printed text and the set of tags determine each other. */
  lemma SameTextExactly(tags: seq<string>, other: seq<string>)
    requires forall t :: t in Cleaned(tags) + Cleaned(other) ==> IsTag(t)
    ensures Render(tags) == Render(other) <==> forall x :: Cleans(tags, x) <==> Cleans(other, x)
  {
    ScanRender(tags);
    ScanRender(other);
    if Render(tags) == Render(other) {
      forall x ensures Cleans(tags, x) <==> Cleans(other, x) {
        assert x in Cleaned(tags) <==> x in Cleaned(other);
      }
    } else if forall x :: Cleans(tags, x) <==> Cleans(other, x) {
      RenderDependsOnSet(tags, other);
    }
  }

  /** The service starts with exactly the tags it printed, exactly if all of them fit the pattern. */
  lemma RoundTripExactly(tags: seq<string>)
    ensures Read(Render(tags)) == (set t | t in Cleaned(tags)) <==> forall t :: t in Cleaned(tags) ==> IsTag(t)
  {
    var clean := Cleaned(tags);
    ReadsTags(Render(tags), true);
    if forall t :: t in clean ==> IsTag(t) {
      ScanRender(tags);
    } else {
      var t :| t in clean && !IsTag(t);
      assert t !in Read(Render(tags));
    }
  }
}
