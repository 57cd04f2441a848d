/** Trimming and sorting of texts, shared by the components that normalise or list names. */
module Text {

  /** Python's white space. */
  predicate IsSpace(c: char) {
    var n := c as int;
    || 9 <= n <= 13 || 28 <= n <= 32 || n == 0x85 || n == 0xA0 || n == 0x1680 || 0x2000 <= n <= 0x200A
    || n == 0x2028 || n == 0x2029 || n == 0x202F || n == 0x205F || n == 0x3000
  }

  predicate AllSpace(s: string) { forall i :: 0 <= i < |s| ==> IsSpace(s[i]) }

  predicate Tight(s: string) { s == "" || (!IsSpace(s[0]) && !IsSpace(s[|s| - 1])) }

  function Strip(s: string): (r: string)
    ensures Tight(r)
  {
    if s == "" then ""
    else if IsSpace(s[0]) then Strip(s[1..])
    else if IsSpace(s[|s| - 1]) then Strip(s[..|s| - 1])
    else s
  }

  /** Only white space is taken off, and only at the ends. */
  lemma {:induction false} StripMeans(s: string) returns (left: string, right: string)
    ensures s == left + Strip(s) + right && AllSpace(left) && AllSpace(right)
  {
    if s != "" && IsSpace(s[0]) {
      left, right := StripMeans(s[1..]);
      SpaceBefore(s, left, Strip(s), right);
      left := [s[0]] + left;
    } else if s != "" && IsSpace(s[|s| - 1]) {
      left, right := StripMeans(s[..|s| - 1]);
      SpaceAfter(s, left, Strip(s), right);
      right := right + [s[|s| - 1]];
    } else {
      left, right := "", "";
    }
  }

  lemma SpaceBefore(s: string, left: string, core: string, right: string)
    requires s != "" && IsSpace(s[0]) && s[1..] == left + core + right && AllSpace(left)
    ensures s == [s[0]] + left + core + right && AllSpace([s[0]] + left)
  {
    assert s == [s[0]] + s[1..];
  }

  lemma SpaceAfter(s: string, left: string, core: string, right: string)
    requires s != "" && IsSpace(s[|s| - 1]) && s[..|s| - 1] == left + core + right && AllSpace(right)
    ensures s == left + core + (right + [s[|s| - 1]]) && AllSpace(right + [s[|s| - 1]])
  {
    assert s == s[..|s| - 1] + [s[|s| - 1]];
  }

  /** Code point order, as sorted() compares strings. */
  predicate Less(a: string, b: string) {
    b != "" && (a == "" || a[0] < b[0] || (a[0] == b[0] && Less(a[1..], b[1..])))
  }

  ghost predicate DifferAt(a: string, b: string, k: nat) {
    k <= |a| && k < |b| && a[..k] == b[..k] && (k == |a| || a[k] < b[k])
  }

  lemma FirstAgrees(a: string, b: string, k: nat)
    requires DifferAt(a, b, k) && 0 < k
    ensures a != "" && b != "" && a[0] == b[0]
  {
    assert a[..k][0] == b[..k][0];
  }

  /** A string comes before another that it begins, or that has the greater code point where they first differ. */
  lemma {:induction false} LessMeans(a: string, b: string)
    ensures Less(a, b) <==> exists k: nat :: DifferAt(a, b, k)
  {
    if a == "" || b == "" || a[0] != b[0] {
      if Less(a, b) { assert DifferAt(a, b, 0); }
      forall k: nat | DifferAt(a, b, k) ensures k == 0 {
        if 0 < k { FirstAgrees(a, b, k); }
      }
    } else {
      LessMeans(a[1..], b[1..]);
      if k: nat :| DifferAt(a[1..], b[1..], k) {
        assert a[..k + 1] == [a[0]] + a[1..][..k] && b[..k + 1] == [b[0]] + b[1..][..k];
        assert DifferAt(a, b, k + 1);
      }
      if k: nat :| DifferAt(a, b, k) {
        assert a[1..][..k - 1] == a[..k][1..] && b[1..][..k - 1] == b[..k][1..];
        assert DifferAt(a[1..], b[1..], k - 1);
      }
    }
  }

  lemma {:induction false} LessTotal(a: string, b: string)
    ensures a == b || Less(a, b) || Less(b, a)
    ensures !(Less(a, b) && Less(b, a)) && !Less(a, a)
  {
    if a != "" && b != "" && a[0] == b[0] {
      LessTotal(a[1..], b[1..]);
      if a[1..] == b[1..] {
        assert a == [a[0]] + a[1..] && b == [b[0]] + b[1..];
      }
    }
    if a != "" {
      LessTotal(a[1..], a[1..]);
    }
  }

  lemma {:induction false} LessTransitive(a: string, b: string, c: string)
    requires Less(a, b) && Less(b, c)
    ensures Less(a, c)
  {
    if a != "" && a[0] == b[0] == c[0] {
      LessTransitive(a[1..], b[1..], c[1..]);
    }
  }

  ghost predicate Ascending(tags: seq<string>) { forall i, j :: 0 <= i < j < |tags| ==> Less(tags[i], tags[j]) }

  function Insert(tags: seq<string>, t: string): (r: seq<string>)
    ensures forall x :: x in r <==> x in tags || x == t
  {
    if tags == [] || Less(t, tags[0]) then [t] + tags
    else if t == tags[0] then tags
    else
      assert tags == [tags[0]] + tags[1..];
      [tags[0]] + Insert(tags[1..], t)
  }

  lemma {:induction false} InsertAscending(tags: seq<string>, t: string)
    requires Ascending(tags)
    ensures Ascending(Insert(tags, t))
  {
    if tags == [] {
    } else if Less(t, tags[0]) {
      forall j | 0 <= j < |tags| ensures Less(t, tags[j]) {
        if j > 0 { LessTransitive(t, tags[0], tags[j]); }
      }
    } else if t != tags[0] {
      LessTotal(t, tags[0]);
      var more := Insert(tags[1..], t);
      InsertAscending(tags[1..], t);
      forall j | 0 <= j < |more| ensures Less(tags[0], more[j]) {
        assert more[j] in more;
        if more[j] != t {
          var k :| 0 <= k < |tags[1..]| && tags[1..][k] == more[j];
          assert tags[k + 1] == more[j];
        }
      }
    }
  }

  lemma HeadsAgree(a: seq<string>, b: seq<string>)
    requires Ascending(a) && Ascending(b) && a != [] && b != []
    requires a[0] in b && b[0] in a
    ensures a[0] == b[0]
  {
    var k :| 0 <= k < |b| && b[k] == a[0];
    var j :| 0 <= j < |a| && a[j] == b[0];
    LessTotal(a[0], b[0]);
  }

  lemma SomeElement(a: seq<string>)
    ensures a == [] || exists x :: x in a
  {
    if a != [] {
      assert a[0] in a;
    }
  }

  /** There is only one sorted list of given tags. */
  lemma {:induction false} AscendingUnique(a: seq<string>, b: seq<string>)
    requires Ascending(a) && Ascending(b) && forall x :: x in a <==> x in b
    ensures a == b
  {
    SomeElement(a);
    SomeElement(b);
    if a != [] && b != [] {
      assert a[0] in b && b[0] in a;
      HeadsAgree(a, b);
      TailElements(a);
      TailElements(b);
      AscendingUnique(a[1..], b[1..]);
      assert a == [a[0]] + a[1..] && b == [b[0]] + b[1..];
    }
  }

  lemma TailElements(a: seq<string>)
    requires Ascending(a) && a != []
    ensures Ascending(a[1..]) && forall x :: x in a[1..] <==> x in a && x != a[0]
  {
    LessTotal(a[0], a[0]);
    assert a == [a[0]] + a[1..];
    forall x | x in a[1..] ensures x != a[0] {
      var k :| 0 <= k < |a[1..]| && a[1..][k] == x;
      assert Less(a[0], a[k + 1]);
    }
  }
}
