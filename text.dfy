/** The string operations index.js relies on: `startsWith`, the search behind
    `split`, `split` itself and `Array.prototype.join`. */
module Text {
  import opened Errors

  const CRLF: string := "\r\n"

  /** `s.startsWith(prefix)`. */
  predicate StartsWith(s: string, prefix: string) {
    |prefix| <= |s| && s[..|prefix|] == prefix
  }

  /** `startsWith` compares character by character and is case-sensitive. */
  lemma StartsWithCharwise(s: string, prefix: string)
    ensures StartsWith(s, prefix) <==>
              |prefix| <= |s| && forall i :: 0 <= i < |prefix| ==> s[i] == prefix[i]
  {
    if |prefix| <= |s| && forall i :: 0 <= i < |prefix| ==> s[i] == prefix[i] {
      assert s[..|prefix|] == prefix;
    }
  }

  /** The separator `d` occurs in `s` starting at index `i`. */
  predicate OccursAt(s: string, d: string, i: nat) {
    i + |d| <= |s| && s[i..i + |d|] == d
  }

  predicate Contains(s: string, d: string) {
    exists i: nat :: i <= |s| && OccursAt(s, d, i)
  }

  /** No carriage return in `s` is directly followed by a line feed. */
  predicate NoCrlf(s: string) {
    forall i :: 0 <= i < |s| - 1 ==> !(s[i] == '\r' && s[i + 1] == '\n')
  }

  /** `i` is the first index at which `d` occurs in `s`. */
  predicate FirstOccurrence(s: string, d: string, i: nat) {
    OccursAt(s, d, i) && forall j: nat :: j < i ==> !OccursAt(s, d, j)
  }

  /** `s.indexOf(d, from)`, with `None` for -1. */
  function IndexOf(s: string, d: string, from: nat): (r: Option<nat>)
    requires from <= |s|
    ensures r.Some? ==> from <= r.value && OccursAt(s, d, r.value)
    ensures r.Some? ==> forall j: nat :: from <= j < r.value ==> !OccursAt(s, d, j)
    ensures r.None? ==> forall j: nat :: from <= j ==> !OccursAt(s, d, j)
    decreases |s| - from
  {
    if from + |d| > |s| then None
    else if s[from..from + |d|] == d then Some(from)
    else IndexOf(s, d, from + 1)
  }

  /** `s.split(d)` for a non-empty separator: the pieces between successive
      occurrences of `d`, found left to right without overlap. */
  function Split(s: string, d: string): (parts: seq<string>)
    requires |d| > 0
    ensures |parts| >= 1
    decreases |s|
  {
    match IndexOf(s, d, 0)
    case None => [s]
    case Some(i) => [s[..i]] + Split(s[i + |d|..], d)
  }

  /** No piece of a split holds the separator: each ends before the next
      occurrence, or at the end of the string when none is left. */
  lemma {:induction false} SplitPiecesLackSeparator(s: string, d: string)
    requires |d| > 0
    ensures forall k :: 0 <= k < |Split(s, d)| ==> !Contains(Split(s, d)[k], d)
    decreases |s|
  {
    match IndexOf(s, d, 0)
    case None =>
      NoneBeforeIsAbsent(s, d, |s|);
      assert s[..|s|] == s;
    case Some(i) =>
      NoneBeforeIsAbsent(s, d, i);
      SplitPiecesLackSeparator(s[i + |d|..], d);
      assert Split(s, d) == [s[..i]] + Split(s[i + |d|..], d);
  }

  /** Text ending where no occurrence of `d` has started yet holds no `d`. */
  lemma NoneBeforeIsAbsent(s: string, d: string, i: nat)
    requires |d| > 0 && i <= |s|
    requires forall j: nat :: j < i ==> !OccursAt(s, d, j)
    ensures !Contains(s[..i], d)
  {
    forall j: nat | j <= i && OccursAt(s[..i], d, j) ensures false {
      assert s[..i][j..j + |d|] == s[j..j + |d|];
      assert OccursAt(s, d, j);
    }
  }

  /** The total length of some pieces. */
  function TotalLength(parts: seq<string>): nat
    decreases |parts|
  {
    if |parts| == 0 then 0 else |parts[0]| + TotalLength(parts[1..])
  }

  /** `parts.join(sep)`. */
  function Join(parts: seq<string>, sep: string): string
    decreases |parts|
  {
    if |parts| == 0 then ""
    else if |parts| == 1 then parts[0]
    else parts[0] + sep + Join(parts[1..], sep)
  }

  /** A join holds every piece and one separator between each two pieces,
      and it starts with the first piece. */
  lemma {:induction false} JoinLength(parts: seq<string>, sep: string)
    requires |parts| > 0
    ensures |Join(parts, sep)| == TotalLength(parts) + (|parts| - 1) * |sep|
    ensures StartsWith(Join(parts, sep), parts[0])
    decreases |parts|
  {
    if |parts| > 1 {
      JoinLength(parts[1..], sep);
      var r := Join(parts, sep);
      assert r == parts[0] + (sep + Join(parts[1..], sep));
      assert r[..|parts[0]|] == parts[0];
    }
  }

  /** When `d` is absent `IndexOf` says so, and when it is present it
      finds the first occurrence: the search is exact in both directions. */
  lemma IndexOfFindsFirst(s: string, d: string, i: nat)
    requires FirstOccurrence(s, d, i)
    ensures IndexOf(s, d, 0) == Some(i)
  {
  }

  /** The first piece of a split is the text before the first separator, or
      the whole string when there is none. */
  lemma SplitFirstPiece(s: string, d: string)
    requires |d| > 0
    ensures |Split(s, d)| == 1 <==> !Contains(s, d)
    ensures |Split(s, d)| == 1 ==> Split(s, d)[0] == s
    ensures |Split(s, d)| > 1 ==> StartsWith(s, Split(s, d)[0])
    ensures |Split(s, d)| > 1 ==> FirstOccurrence(s, d, |Split(s, d)[0]|)
  {
    var parts := Split(s, d);
    match IndexOf(s, d, 0)
    case None =>
      assert parts == [s];
    case Some(i) =>
      assert parts == [s[..i]] + Split(s[i + |d|..], d);
      assert |parts[0]| == i;
      assert OccursAt(s, d, i);
  }

  /** After the first piece, the remaining pieces are the split of what
      follows the first separator. */
  lemma SplitRestPieces(s: string, d: string)
    requires |d| > 0
    ensures |Split(s, d)| > 1 ==> Split(s, d)[1..] == Split(s[|Split(s, d)[0]| + |d|..], d)
  {
    var parts := Split(s, d);
    match IndexOf(s, d, 0)
    case None =>
    case Some(i) =>
      var tail := s[i + |d|..];
      var rest := Split(tail, d);
      assert parts == [s[..i]] + rest;
      assert s[|parts[0]| + |d|..] == tail;
      assert parts[1..] == rest;
  }


  /** Joining a non-empty list after one more piece puts one separator between. */
  lemma JoinCons(p: string, ps: seq<string>, sep: string)
    requires |ps| > 0
    ensures Join([p] + ps, sep) == p + sep + Join(ps, sep)
  {
    assert ([p] + ps)[1..] == ps;
  }

  /** Joining the pieces of a split gives back the original string. */
  lemma {:induction false} JoinSplit(s: string, d: string)
    requires |d| > 0
    ensures Join(Split(s, d), d) == s
    decreases |s|
  {
    match IndexOf(s, d, 0)
    case None =>
    case Some(i) =>
      var rest := s[i + |d|..];
      var pieces := Split(rest, d);
      JoinSplit(rest, d);
      assert Split(s, d) == [s[..i]] + pieces;
      JoinCons(s[..i], pieces, d);
      assert s[i..i + |d|] == d;
      assert s == s[..i] + s[i..i + |d|] + rest;
  }

  /** Joining two non-empty lists is joining each and putting one separator between. */
  lemma {:induction false} JoinAppend(a: seq<string>, b: seq<string>, sep: string)
    requires |a| > 0 && |b| > 0
    ensures Join(a + b, sep) == Join(a, sep) + sep + Join(b, sep)
    decreases |a|
  {
    if |a| == 1 {
      JoinCons(a[0], b, sep);
      assert a + b == [a[0]] + b;
    } else {
      JoinAppend(a[1..], b, sep);
      assert a + b == [a[0]] + (a[1..] + b);
      JoinCons(a[0], a[1..] + b, sep);
      JoinCons(a[0], a[1..], sep);
      assert a == [a[0]] + a[1..];
    }
  }

  /** A string without carriage returns has no CRLF. */
  lemma NoCrlfWithoutCr(s: string)
    requires '\r' !in s
    ensures NoCrlf(s)
  {
    forall i | 0 <= i < |s| - 1 ensures s[i] != '\r' {
      assert s[i] in s;
    }
  }

  /** A concatenation has no CRLF when neither part has one and none is
      formed across the seam. */
  lemma NoCrlfConcat(a: string, b: string)
    requires NoCrlf(a) && NoCrlf(b)
    requires |a| == 0 || |b| == 0 || a[|a| - 1] != '\r' || b[0] != '\n'
    ensures NoCrlf(a + b)
  {
    var s := a + b;
    forall i | 0 <= i < |s| - 1
      ensures !(s[i] == '\r' && s[i + 1] == '\n')
    {
      if i + 1 < |a| {
        assert s[i] == a[i] && s[i + 1] == a[i + 1];
      } else if i >= |a| {
        assert s[i] == b[i - |a|] && s[i + 1] == b[i + 1 - |a|];
      }
    }
  }

  /** Splitting on CRLF undoes joining with CRLF, provided no piece holds a
      CRLF of its own. */
  lemma {:induction false} SplitJoinCrlf(parts: seq<string>)
    requires |parts| > 0
    requires forall k :: 0 <= k < |parts| ==> NoCrlf(parts[k])
    ensures Split(Join(parts, CRLF), CRLF) == parts
    decreases |parts|
  {
    if |parts| == 1 {
      var s := parts[0];
      forall j: nat | j + 2 <= |s| ensures !OccursAt(s, CRLF, j) {
        assert s[j..j + 2] == [s[j], s[j + 1]];
        assert !(s[j] == '\r' && s[j + 1] == '\n');
      }
      assert IndexOf(s, CRLF, 0) == None;
    } else {
      var p := parts[0];
      var tail := Join(parts[1..], CRLF);
      var s := Join(parts, CRLF);
      assert s == p + CRLF + tail;
      assert OccursAt(s, CRLF, |p|) by {
        assert s[|p|..|p| + 2] == CRLF;
      }
      forall j: nat | j < |p|
        ensures !OccursAt(s, CRLF, j)
      {
        if j + 2 <= |p| {
          assert s[j] == p[j] && s[j + 1] == p[j + 1];
        } else {
          assert s[j + 1] == '\r';
        }
      }
      IndexOfFindsFirst(s, CRLF, |p|);
      assert s[|p| + 2..] == tail;
      SplitJoinCrlf(parts[1..]);
      assert Split(s, CRLF) == [s[..|p|]] + Split(tail, CRLF);
      assert s[..|p|] == p;
      assert parts == [p] + parts[1..];
    }
  }
}
