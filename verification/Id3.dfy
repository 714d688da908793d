/**
 * The ID3v2.4 writers of cmd/mkfixtures/main.go:41-43 and 113-122: synchsafe integers and
 * unsynchronisation (sections 6.2 and 6.1 of the ID3v2.4.0 main structure document). The
 * specification is what a reader does to undo them.
 */
module Id3 {
  import opened Basics

  /** syncsafe: 28 bits, seven to a byte. */
  function Syncsafe(n: nat): (s: Bytes)
    ensures |s| == 4
  {
    [n / 0x20_0000 % 128, n / 0x4000 % 128, n / 0x80 % 128, n % 128]
  }

  function ReadSyncsafe(s: Bytes): nat
    requires |s| == 4
  {
    var a: int, b: int, c: int, d: int := s[0], s[1], s[2], s[3];
    ((a * 128 + b) * 128 + c) * 128 + d
  }

  /** Reading back gives the size written exactly while it fits in 28 bits, and no byte looks like
      part of a sync signal. */
  lemma SyncsafeRoundTrips(n: nat)
    ensures ReadSyncsafe(Syncsafe(n)) == n <==> n < 0x1000_0000
    ensures forall i :: 0 <= i < 4 ==> Syncsafe(n)[i] < 0x80
  {
    var a, b, c := n / 0x80, n / 0x4000, n / 0x20_0000;
    assert b == a / 0x80 && c == b / 0x80;
    assert n == a * 0x80 + n % 0x80 && a == b * 0x80 + a % 0x80 && b == c * 0x80 + b % 0x80;
    var s := Syncsafe(n);
    assert s[0] == c % 0x80 && s[1] == b % 0x80 && s[2] == a % 0x80;
    assert ReadSyncsafe(s) == n - (c - c % 0x80) * 0x20_0000;
  }

  // ------------------------------------------------------------------ unsynchronisation

  /** Whether a zero goes after the 0xff at the front of b: it ends b, or a false sync or a zero follows. */
  predicate Stuffed(b: Bytes)
    requires b != []
  {
    b[0] == 0xFF && (|b| == 1 || b[1] / 0x20 == 7 || b[1] == 0)
  }

  /** unsync, a byte at a time from the front. */
  function Unsync(b: Bytes): Bytes {
    if b == [] then [] else (if Stuffed(b) then [b[0], 0] else [b[0]]) + Unsync(b[1..])
  }

  lemma UnsyncStep(o: Bytes, b: Bytes, i: nat)
    requires i < |b|
    ensures o + Unsync(b[i..])
      == (if Stuffed(b[i..]) then o + [b[i]] + [0] else o + [b[i]]) + Unsync(b[i + 1..])
  {
    var t, rest := b[i..], Unsync(b[i + 1..]);
    assert t[1..] == b[i + 1..];
    if Stuffed(t) {
      assert o + ([b[i], 0] + rest) == o + [b[i]] + [0] + rest;
    } else {
      assert o + ([b[i]] + rest) == o + [b[i]] + rest;
    }
  }

  /** unsync as the writer does it, appending to a buffer. */
  method Unsynchronise(b: Bytes) returns (o: Bytes)
    ensures o == Unsync(b)
  {
    o := [];
    for i := 0 to |b|
      invariant o + Unsync(b[i..]) == Unsync(b)
    {
      UnsyncStep(o, b, i);
      o := o + [b[i]];
      if b[i] == 0xFF && (i + 1 == |b| || b[i + 1] / 0x20 == 7 || b[i + 1] == 0) {
        o := o + [0];
      }
    }
    assert b[|b|..] == [];
  }

  /** What a reader does: a zero after 0xff is dropped. */
  function Resync(s: Bytes): Bytes {
    if s == [] then []
    else if s[0] == 0xFF && |s| > 1 && s[1] == 0 then [s[0]] + Resync(s[2..])
    else [s[0]] + Resync(s[1..])
  }

  /** No false sync: 0xff with three set bits after it, or at the end. */
  ghost predicate Clean(s: Bytes) {
    && (forall i :: 0 <= i < |s| - 1 && s[i] == 0xFF ==> s[i + 1] < 0xE0)
    && (s != [] ==> s[|s| - 1] != 0xFF)
  }

  /** Removing unsynchronisation gives back every byte string. */
  lemma {:induction false} UnsyncRoundTrips(b: Bytes)
    ensures Resync(Unsync(b)) == b
  {
    if b != [] {
      var rest, u := Unsync(b[1..]), Unsync(b);
      UnsyncRoundTrips(b[1..]);
      if Stuffed(b) {
        assert u == [b[0], 0] + rest;
        assert u[2..] == rest;
      } else {
        assert u == [b[0]] + rest;
        assert u[1..] == rest;
        UnsyncHead(b[1..]);
      }
      assert [b[0]] + b[1..] == b;
    }
  }

  lemma {:induction false} UnsyncHead(b: Bytes)
    ensures b == [] <==> Unsync(b) == []
    ensures b != [] ==> Unsync(b)[0] == b[0]
  {
  }

  /** Unsynchronised bytes hold no false sync and do not end in 0xff. */
  lemma {:induction false} UnsyncIsClean(b: Bytes)
    ensures Clean(Unsync(b))
  {
    if b != [] {
      var rest, u := Unsync(b[1..]), Unsync(b);
      UnsyncIsClean(b[1..]);
      UnsyncHead(b[1..]);
      if Stuffed(b) {
        assert forall i :: 2 <= i < |u| ==> u[i] == rest[i - 2];
      } else {
        assert forall i :: 1 <= i < |u| ==> u[i] == rest[i - 1];
      }
    }
  }

  /** It changes nothing exactly when there was nothing to mend: no false sync, and no zero after
      0xff, which a reader would drop. */
  lemma {:induction false} UnsyncIsIdentityExactly(b: Bytes)
    ensures Unsync(b) == b <==> Clean(b) && Resync(b) == b
    ensures |Unsync(b)| >= |b|
  {
    UnsyncIsClean(b);
    UnsyncRoundTrips(b);
    if b != [] {
      UnsyncIsIdentityExactly(b[1..]);
      if Clean(b) && Resync(b) == b {
        ResyncTail(b);
        assert Clean(b[1..]);
        assert !Stuffed(b);
        assert Unsync(b) == [b[0]] + b[1..];
      }
    }
  }

  lemma {:induction false} ResyncTail(b: Bytes)
    requires b != [] && Resync(b) == b
    ensures Resync(b[1..]) == b[1..] && !(b[0] == 0xFF && |b| > 1 && b[1] == 0)
  {
    if b[0] == 0xFF && |b| > 1 && b[1] == 0 {
      ResyncShrinks(b[2..]);
    } else {
      assert Resync(b)[1..] == Resync(b[1..]);
    }
  }

  lemma {:induction false} ResyncShrinks(b: Bytes)
    ensures |Resync(b)| <= |b|
  {
    if b != [] {
      if b[0] == 0xFF && |b| > 1 && b[1] == 0 {
        ResyncShrinks(b[2..]);
      } else {
        ResyncShrinks(b[1..]);
      }
    }
  }
}
