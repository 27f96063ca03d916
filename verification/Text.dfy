/** Small text helpers shared by the parsers. */
module Text {
  import opened Prelude

  predicate Space(c: char)
  {
    c == ' ' || c == '\t' || c == '\n' || c == '\r' || c == '\U{000B}' || c == '\U{000C}' || c == '\U{00A0}'
  }

  function Trim(s: string): string
  {
    if s == "" then ""
    else if Space(s[0]) then Trim(s[1..])
    else if Space(s[|s|-1]) then Trim(s[..|s|-1])
    else s
  }

  predicate Trimmed(s: string)
  {
    s != "" ==> !Space(s[0]) && !Space(s[|s|-1])
  }

  lemma {:induction false} TrimTrims(s: string)
    ensures Trimmed(Trim(s)) && (Trimmed(s) ==> Trim(s) == s)
    ensures forall c :: c in Trim(s) ==> c in s
    decreases |s|
  {
    if s != "" {
      if Space(s[0]) {
        TrimTrims(s[1..]);
      } else if Space(s[|s|-1]) {
        TrimTrims(s[..|s|-1]);
      }
    }
  }

  predicate Blank(s: string)
  {
    forall i :: 0 <= i < |s| ==> Space(s[i])
  }

  /** Trimming takes blanks off both ends, and nothing else. */
  lemma {:induction false} TrimIsTheMiddle(s: string) returns (before: string, after: string)
    ensures s == before + Trim(s) + after && Blank(before) && Blank(after)
    decreases |s|
  {
    before, after := "", "";
    if s != "" {
      if Space(s[0]) {
        before, after := TrimIsTheMiddle(s[1..]);
        before := [s[0]] + before;
        assert s == [s[0]] + s[1..];
      } else if Space(s[|s|-1]) {
        before, after := TrimIsTheMiddle(s[..|s|-1]);
        after := after + [s[|s|-1]];
        assert s == s[..|s|-1] + [s[|s|-1]];
      }
    }
  }

  predicate StartsWith(s: string, p: string)
  {
    |p| <= |s| && s[..|p|] == p
  }

  /** The text before and after the first `c`. */
  function Cut(s: string, c: char): Option<(string, string)>
  {
    if s == "" then None
    else if s[0] == c then Some(("", s[1..]))
    else
      var rest := Cut(s[1..], c);
      if rest.None? then None else Some(([s[0]] + rest.value.0, rest.value.1))
  }

  lemma {:induction false} CutFindsTheFirst(s: string, c: char)
    ensures Cut(s, c).None? <==> c !in s
    ensures Cut(s, c).Some? ==> var (a, b) := Cut(s, c).value; c !in a && s == a + [c] + b
  {
    if s != "" && s[0] != c {
      CutFindsTheFirst(s[1..], c);
      assert s == [s[0]] + s[1..];
    }
  }

  lemma {:induction false} CutAt(a: string, c: char, b: string)
    requires c !in a
    ensures Cut(a + [c] + b, c) == Some((a, b))
  {
    var s := a + [c] + b;
    if a == "" {
      assert s[1..] == b;
    } else {
      CutAt(a[1..], c, b);
      assert s[1..] == a[1..] + [c] + b;
      assert [a[0]] + a[1..] == a;
    }
  }
}
