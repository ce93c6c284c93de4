/** Text helpers shared by the path, header and statement models: cutting a string at a
    separator, and putting the pieces back together. */
module Text {
  datatype Option<+T> = None | Some(value: T)

  /** The pieces of `s` between the occurrences of `c`; there is always at least one. */
  function Split(s: string, c: char): (parts: seq<string>)
    ensures |parts| >= 1
  {
    if s == "" then [""] else Grow(s[0], Split(s[1..], c), c)
  }

  /** The pieces once one more character is put in front. */
  function Grow(head: char, parts: seq<string>, c: char): (r: seq<string>)
    requires |parts| >= 1
    ensures |r| >= 1
  {
    if head == c then [""] + parts else [[head] + parts[0]] + parts[1..]
  }

  function Join(parts: seq<string>, c: char): string
    requires |parts| >= 1
  {
    if |parts| == 1 then parts[0] else parts[0] + [c] + Join(parts[1..], c)
  }

  lemma {:induction false} SplitFree(s: string, c: char)
    requires c !in s
    ensures Split(s, c) == [s]
  {
    if s != "" {
      SplitFree(s[1..], c);
      assert [s[0]] + s[1..] == s;
    }
  }

  /** Splitting goes piece by piece across a separator. */
  lemma {:induction false} SplitConcat(a: string, b: string, c: char)
    ensures Split(a + [c] + b, c) == Split(a, c) + Split(b, c)
  {
    if a == "" {
      assert a + [c] + b == [c] + b;
    } else {
      assert (a + [c] + b)[1..] == a[1..] + [c] + b;
      SplitConcat(a[1..], b, c);
      GrowConcat(a[0], Split(a[1..], c), Split(b, c), c);
    }
  }

  lemma GrowConcat(head: char, parts: seq<string>, more: seq<string>, c: char)
    requires |parts| >= 1
    ensures Grow(head, parts + more, c) == Grow(head, parts, c) + more
  {
    assert (parts + more)[1..] == parts[1..] + more;
  }

  lemma {:induction false} SplitJoin(parts: seq<string>, c: char)
    requires |parts| >= 1
    requires forall p <- parts :: c !in p
    ensures Split(Join(parts, c), c) == parts
  {
    SplitFree(parts[0], c);
    if |parts| > 1 {
      SplitConcat(parts[0], Join(parts[1..], c), c);
      SplitJoin(parts[1..], c);
    }
  }

  lemma {:induction false} JoinSplit(s: string, c: char)
    ensures Join(Split(s, c), c) == s
  {
    if s != "" {
      JoinSplit(s[1..], c);
      var rest := Split(s[1..], c);
      if |rest| > 1 && s[0] != c {
        assert [s[0]] + rest[0] + [c] + Join(rest[1..], c) == [s[0]] + (rest[0] + [c] + Join(rest[1..], c));
      }
    }
  }

  lemma {:induction false} PiecesFree(s: string, c: char)
    ensures forall p <- Split(s, c) :: c !in p
  {
    if s != "" {
      PiecesFree(s[1..], c);
    }
  }
}
