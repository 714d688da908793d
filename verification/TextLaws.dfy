/**
 * What the text handling of HttpText amounts to, said without it: trimming, folding, joining and
 * splitting, and which tokens a Vary names (internal/api/compress.go:230-258).
 */
module TextLaws {
  import opened Basics
  import opened HttpText

  // ------------------------------------------------------------------------ trimming

  predicate IsBlank(s: string) {
    forall i :: 0 <= i < |s| ==> IsSpace(s[i])
  }

  /** No space at either end. */
  predicate IsTrim(s: string) {
    s != "" ==> !IsSpace(s[0]) && !IsSpace(s[|s| - 1])
  }

  lemma {:induction false} TrimLeftBlank(a: string, s: string)
    requires IsBlank(a)
    ensures TrimLeft(a + s) == TrimLeft(s)
  {
    if a == "" {
      assert a + s == s;
    } else {
      assert (a + s)[1..] == a[1..] + s;
      TrimLeftBlank(a[1..], s);
    }
  }

  lemma {:induction false} TrimRightBlank(s: string, b: string)
    requires IsBlank(b)
    ensures TrimRight(s + b) == TrimRight(s)
  {
    if b == "" {
      assert s + b == s;
    } else {
      var n := |b| - 1;
      assert (s + b)[..|s + b| - 1] == s + b[..n];
      TrimRightBlank(s, b[..n]);
    }
  }

  lemma {:induction false} TrimLeftFront(s: string, b: string)
    requires TrimLeft(s) != ""
    ensures TrimLeft(s + b) == TrimLeft(s) + b
  {
    if IsSpace(s[0]) {
      assert (s + b)[1..] == s[1..] + b;
      TrimLeftFront(s[1..], b);
    }
  }

  lemma {:induction false} TrimLeftAllBlank(s: string)
    requires TrimLeft(s) == ""
    ensures IsBlank(s)
  {
    if s != "" {
      TrimLeftAllBlank(s[1..]);
    }
  }

  lemma TrimBlank(a: string, m: string, b: string)
    requires IsBlank(a) && IsBlank(b)
    ensures TrimSpace(a + m + b) == TrimSpace(m)
  {
    assert a + m + b == a + (m + b);
    TrimLeftBlank(a, m + b);
    if TrimLeft(m) == "" {
      TrimLeftAllBlank(m);
      TrimLeftBlank(m, b);
      TrimLeftBlank(b, "");
      assert b + "" == b;
    } else {
      TrimLeftFront(m, b);
      TrimRightBlank(TrimLeft(m), b);
    }
  }


  lemma TrimOfTrim(s: string)
    requires IsTrim(s)
    ensures TrimSpace(s) == s
  {
  }

  /** Blanks around what has no space at its ends are all that trimming takes. */
  lemma TrimTakesBlanks(before: string, s: string, after: string)
    requires IsBlank(before) && IsBlank(after) && IsTrim(s)
    ensures TrimSpace(before + s + after) == s
  {
    TrimBlank(before, s, after);
    TrimOfTrim(s);
  }

  lemma {:induction false} TrimLeftParts(s: string) returns (before: string)
    ensures IsBlank(before) && s == before + TrimLeft(s)
    ensures TrimLeft(s) != "" ==> !IsSpace(TrimLeft(s)[0])
  {
    before := "";
    if s != "" && IsSpace(s[0]) {
      var rest := TrimLeftParts(s[1..]);
      before := [s[0]] + rest;
      assert s == [s[0]] + s[1..];
    }
  }

  lemma {:induction false} TrimRightParts(s: string) returns (after: string)
    ensures IsBlank(after) && s == TrimRight(s) + after
    ensures TrimRight(s) != "" ==> !IsSpace(TrimRight(s)[|TrimRight(s)| - 1])
  {
    after := "";
    if s != "" && IsSpace(s[|s| - 1]) {
      var rest := TrimRightParts(s[..|s| - 1]);
      after := rest + [s[|s| - 1]];
      assert s == s[..|s| - 1] + [s[|s| - 1]];
    }
  }

  /** And everything is blanks around its trimming. */
  lemma TrimParts(s: string) returns (before: string, after: string)
    ensures IsBlank(before) && IsBlank(after) && IsTrim(TrimSpace(s))
    ensures s == before + TrimSpace(s) + after
  {
    before := TrimLeftParts(s);
    after := TrimRightParts(TrimLeft(s));
    assert TrimSpace(s) != "" ==> TrimSpace(s)[0] == TrimLeft(s)[0];
  }

  // ------------------------------------------------------------------------ folding

  /** c is the letter, small or capital, or the other character that folds to it. */
  predicate CaseOf(c: char, letter: char) {
    || c == letter || c as int + 32 == letter as int
    || (letter == 's' && c == '\U{17F}') || (letter == 'k' && c == '\U{212A}')
  }

  /** Two characters fold alike exactly when they are the same, or cases of one letter. */
  lemma FoldsExactly(c: char, d: char)
    ensures Lower(c) == Lower(d) <==> c == d || exists x :: 'a' <= x <= 'z' && CaseOf(c, x) && CaseOf(d, x)
  {
    if Lower(c) == Lower(d) && c != d {
      assert 'a' <= Lower(c) <= 'z' && CaseOf(c, Lower(c)) && CaseOf(d, Lower(c));
    }
  }

  // ------------------------------------------------------------------------ joining and splitting

  function Join(parts: seq<string>, sep: char): string
    requires parts != []
  {
    if |parts| == 1 then parts[0] else parts[0] + [sep] + Join(parts[1..], sep)
  }

  lemma {:induction false} BeforeSep(s: string, sep: char)
    ensures var head := Before(s, sep); |head| < |s| ==> s == head + [sep] + s[|head| + 1..]
    ensures var head := Before(s, sep); |head| == |s| ==> s == head
  {
    if s != "" && s[0] != sep {
      BeforeSep(s[1..], sep);
      assert s == [s[0]] + s[1..];
    }
  }

  lemma {:induction false} JoinSplit(s: string, sep: char)
    ensures Join(Split(s, sep), sep) == s
    decreases |s|
  {
    BeforeSep(s, sep);
    var head := Before(s, sep);
    if |head| < |s| {
      var rest := s[|head| + 1..];
      JoinSplit(rest, sep);
      assert Split(s, sep)[1..] == Split(rest, sep);
    }
  }

  lemma {:induction false} JoinConcat(a: seq<string>, b: seq<string>, sep: char)
    requires a != [] && b != []
    ensures Join(a + b, sep) == Join(a, sep) + [sep] + Join(b, sep)
  {
    assert (a + b)[1..] == a[1..] + b;
    if |a| > 1 {
      JoinConcat(a[1..], b, sep);
    }
  }

  lemma {:induction false} BeforeConcat(a: string, b: string, sep: char)
    requires sep !in a
    ensures Before(a + [sep] + b, sep) == a
  {
    if a == "" {
      assert a + [sep] + b == [sep] + b;
    } else {
      assert (a + [sep] + b)[1..] == a[1..] + [sep] + b;
      BeforeConcat(a[1..], b, sep);
    }
  }

  lemma {:induction false} SplitStep(head: string, rest: string, sep: char)
    requires sep !in head
    ensures Split(head + [sep] + rest, sep) == [head] + Split(rest, sep)
  {
    BeforeConcat(head, rest, sep);
    assert (head + [sep] + rest)[|head| + 1..] == rest;
  }

  lemma {:induction false} SplitLonger(head: string, rest: string, b: string, sep: char)
    requires sep !in head && Split(rest + [sep] + b, sep) == Split(rest, sep) + Split(b, sep)
    ensures Split(head + [sep] + rest + [sep] + b, sep) == Split(head + [sep] + rest, sep) + Split(b, sep)
  {
    SepAssociates(head, rest, b, sep);
    SplitStep(head, rest + [sep] + b, sep);
    SplitStep(head, rest, sep);
    Associates([head], Split(rest, sep), Split(b, sep));
  }

  lemma Associates<T>(a: seq<T>, b: seq<T>, c: seq<T>)
    ensures a + b + c == a + (b + c)
  {
  }

  lemma SepAssociates(a: string, b: string, c: string, sep: char)
    ensures a + [sep] + b + [sep] + c == a + [sep] + (b + [sep] + c)
  {
  }

  lemma {:induction false} SplitConcat(a: string, b: string, sep: char)
    ensures Split(a + [sep] + b, sep) == Split(a, sep) + Split(b, sep)
    decreases |a|
  {
    BeforeSep(a, sep);
    var head := Before(a, sep);
    if |head| == |a| {
      SplitStep(a, b, sep);
    } else {
      SplitConcat(a[|head| + 1..], b, sep);
      SplitLonger(head, a[|head| + 1..], b, sep);
    }
  }

  lemma {:induction false} SplitJoin(parts: seq<string>, sep: char)
    requires parts != [] && forall i :: 0 <= i < |parts| ==> sep !in parts[i]
    ensures Split(Join(parts, sep), sep) == parts
  {
    if |parts| == 1 {
      NoSepBefore(parts[0], sep);
    } else {
      SplitJoin(parts[1..], sep);
      SplitStep(parts[0], Join(parts[1..], sep), sep);
    }
  }

  lemma {:induction false} NoSepBefore(s: string, sep: char)
    requires sep !in s
    ensures Split(s, sep) == [s]
  {
  }

  // ------------------------------------------------------------------------ what a Vary names

  /** One of a header value's comma-separated items: a token, blanks around it. */
  datatype Item = Item(before: string, token: string, after: string) {
    function Text(): string { before + token + after }

    predicate Valid() { IsBlank(before) && IsBlank(after) && IsTrim(token) && ',' !in token }
  }

  function Texts(items: seq<Item>): (s: seq<string>)
    ensures |s| == |items| && forall i :: 0 <= i < |items| ==> s[i] == items[i].Text()
  {
    seq(|items|, i requires 0 <= i < |items| => items[i].Text())
  }

  /** value is these items, comma-joined. */
  ghost predicate Lists(value: string, items: seq<Item>) {
    && items != [] && (forall i :: 0 <= i < |items| ==> items[i].Valid())
    && value == Join(Texts(items), ',')
  }

  /** One of the items of one of the values is the token, in any case. */
  ghost predicate Named(lists: seq<seq<Item>>, token: string) {
    exists i, j :: 0 <= i < |lists| && 0 <= j < |lists[i]| && EqualFold(lists[i][j].token, token)
  }

  lemma ItemSplits(item: Item)
    requires item.Valid()
    ensures ',' !in item.Text() && TrimSpace(item.Text()) == item.token
  {
    TrimTakesBlanks(item.before, item.token, item.after);
    assert !IsSpace(',');
  }

  lemma {:induction false} ItemsSplit(value: string, items: seq<Item>)
    requires Lists(value, items)
    ensures |Split(value, ',')| == |items|
    ensures forall j :: 0 <= j < |items| ==> TrimSpace(Split(value, ',')[j]) == items[j].token
  {
    forall j | 0 <= j < |items| ensures ',' !in Texts(items)[j] && TrimSpace(Texts(items)[j]) == items[j].token {
      ItemSplits(items[j]);
    }
    SplitJoin(Texts(items), ',');
  }

  /** Every value is some such list. */
  lemma EveryValueLists(value: string) returns (items: seq<Item>)
    ensures Lists(value, items)
  {
    var parts := Split(value, ',');
    items := [];
    SplitHasNoSep(value, ',');
    for n := 0 to |parts|
      invariant |items| == n && forall i :: 0 <= i < n ==> items[i].Valid() && items[i].Text() == parts[i]
    {
      var before, after := TrimParts(parts[n]);
      var item := Item(before, TrimSpace(parts[n]), after);
      TrimIsPart(parts[n], item);
      items := items + [item];
    }
    assert Texts(items) == parts;
    JoinSplit(value, ',');
  }

  lemma TrimIsPart(s: string, item: Item)
    requires item.Text() == s && ',' !in s
    ensures ',' !in item.token
  {
    forall i | 0 <= i < |item.token| ensures item.token[i] != ',' {
      assert s[|item.before| + i] == item.token[i];
    }
  }

  lemma {:induction false} SplitHasNoSep(s: string, sep: char)
    ensures forall i :: 0 <= i < |Split(s, sep)| ==> sep !in Split(s, sep)[i]
    decreases |s|
  {
    var head := Before(s, sep);
    if |head| < |s| {
      SplitHasNoSep(s[|head| + 1..], sep);
    }
  }

  /** Whether each value is these lists' items. */
  ghost predicate AllList(vary: seq<string>, lists: seq<seq<Item>>) {
    |vary| == |lists| && forall i :: 0 <= i < |vary| ==> Lists(vary[i], lists[i])
  }

  /** Vary values name a token exactly when one of their items is it, in any case. */
  lemma NamesExactly(vary: seq<string>, lists: seq<seq<Item>>, token: string)
    requires AllList(vary, lists)
    ensures HasVary(vary, token) <==> Named(lists, token)
  {
    forall i | 0 <= i < |vary|
      ensures |Split(vary[i], ',')| == |lists[i]|
      ensures forall j :: 0 <= j < |lists[i]| ==> TrimSpace(Split(vary[i], ',')[j]) == lists[i][j].token
    {
      ItemsSplit(vary[i], lists[i]);
    }
    if Named(lists, token) {
      var i, j :| 0 <= i < |lists| && 0 <= j < |lists[i]| && EqualFold(lists[i][j].token, token);
      assert EqualFold(TrimSpace(Split(vary[i], ',')[j]), token);
    }
  }

  /** A token is added, as one value more, exactly when no item of any value is it. */
  lemma AddsExactly(vary: seq<string>, lists: seq<seq<Item>>, token: string)
    requires AllList(vary, lists)
    ensures AddVary(vary, token) == if Named(lists, token) then vary else vary + [token]
  {
    NamesExactly(vary, lists, token);
  }
}
