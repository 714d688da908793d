/** Small shared vocabulary: optional values, bytes and a few sequence helpers. */
module Basics {

  datatype Option<+T> = None | Some(value: T) {
    function GetOr(default: T): T {
      match this
      case Some(v) => v
      case None => default
    }
  }

  type byte = x: int | 0 <= x < 256
  type Bytes = seq<byte>

  function Min(a: int, b: int): int {
    if a <= b then a else b
  }

  function Max(a: int, b: int): int {
    if a >= b then a else b
  }

  function MinReal(a: real, b: real): real {
    if a <= b then a else b
  }

  function MaxReal(a: real, b: real): real {
    if a >= b then a else b
  }

  /** The elements of a sequence. */
  ghost function Range<T(!new)>(s: seq<T>): set<T> {
    set x | x in s
  }

  function Flatten<T>(chunks: seq<seq<T>>): seq<T> {
    if chunks == [] then [] else chunks[0] + Flatten(chunks[1..])
  }

  lemma FlattenOne<T>(chunk: seq<T>)
    ensures Flatten([chunk]) == chunk
  {
    assert [chunk][1..] == [];
  }

  lemma {:induction false} FlattenAppend<T>(chunks: seq<seq<T>>, last: seq<T>)
    ensures Flatten(chunks + [last]) == Flatten(chunks) + last
  {
    if chunks == [] {
      assert [last][1..] == [];
    } else {
      FlattenAppend(chunks[1..], last);
      assert (chunks + [last])[1..] == chunks[1..] + [last];
    }
  }

  lemma SubsetSize<T>(a: set<T>, b: set<T>)
    requires a <= b
    ensures |a| <= |b|
  {
    assert b == a + (b - a);
  }

  /** Strings in the order of their characters, first difference first. */
  predicate Less(s: string, t: string) {
    t != "" && (s == "" || s[0] < t[0] || (s[0] == t[0] && Less(s[1..], t[1..])))
  }

  lemma {:induction false} LessOrMore(s: string, t: string)
    ensures Less(s, t) || Less(t, s) || s == t
  {
    if s != "" && t != "" && s[0] == t[0] {
      LessOrMore(s[1..], t[1..]);
      if s[1..] == t[1..] {
        assert s == [s[0]] + s[1..] && t == [t[0]] + t[1..];
      }
    }
  }

  lemma {:induction false} LessIsTransitive(s: string, t: string, u: string)
    requires Less(s, t) && Less(t, u)
    ensures Less(s, u)
  {
    if s != "" && s[0] == t[0] == u[0] {
      LessIsTransitive(s[1..], t[1..], u[1..]);
    }
  }

  /** In order, nothing twice. */
  ghost predicate Sorted(s: seq<string>) {
    forall i, j :: 0 <= i < j < |s| ==> Less(s[i], s[j])
  }

  /** x in its place among those before it, i of them less, and those after. */
  lemma {:induction false} InsertedIsSorted(s: seq<string>, x: string, i: nat)
    requires Sorted(s) && i <= |s| && (i > 0 ==> Less(s[i - 1], x)) && (i < |s| ==> Less(x, s[i]))
    ensures Sorted(s[..i] + [x] + s[i..])
  {
    forall j | 0 <= j < i ensures Less(s[j], x) {
      if j < i - 1 {
        LessIsTransitive(s[j], s[i - 1], x);
      }
    }
    forall j | i <= j < |s| ensures Less(x, s[j]) {
      if i < j {
        LessIsTransitive(x, s[i], s[j]);
      }
    }
  }

  method InsertSorted(s: seq<string>, x: string) returns (t: seq<string>)
    requires Sorted(s) && x !in s
    ensures Sorted(t) && Range(t) == Range(s) + {x}
  {
    var i := 0;
    while i < |s| && Less(s[i], x)
      invariant i <= |s| && (i > 0 ==> Less(s[i - 1], x))
    {
      i := i + 1;
    }
    if i < |s| {
      LessOrMore(s[i], x);
    }
    InsertedIsSorted(s, x, i);
    t := s[..i] + [x] + s[i..];
    assert s == s[..i] + s[i..];
  }

  /** The elements of a set in order. */
  method SortedOf(names: set<string>) returns (s: seq<string>)
    ensures Sorted(s) && Range(s) == names
  {
    s := [];
    var todo := names;
    while todo != {}
      invariant todo <= names && Sorted(s) && Range(s) == names - todo
      decreases todo
    {
      var x :| x in todo;
      assert x !in Range(s);
      s := InsertSorted(s, x);
      todo := todo - {x};
    }
  }
}
