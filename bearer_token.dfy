/**
  The JavaScript `String.prototype.split` of a string by a non-empty string
  separator, and the bearer-token extraction the authorisation gate builds on
  it: `authorization.split('Bearer ')[1]`.
 */
module BearerToken {
  import opened Wrappers

  /** The separator the gate splits the Authorization header by. */
  const Bearer: string := "Bearer "

  /** `sep` occurs in `s` starting at index `i`. */
  predicate OccursAt(s: string, sep: string, i: int)
  {
    0 <= i && i + |sep| <= |s| && s[i..i + |sep|] == sep
  }

  /** `sep` occurs somewhere in `s`. */
  ghost predicate Occurs(s: string, sep: string)
  {
    exists i :: OccursAt(s, sep, i)
  }

  /** The first index at or after `from` where `sep` occurs, as the search step of split does. */
  function FindFrom(s: string, sep: string, from: nat): (r: Option<nat>)
    requires |sep| > 0
    ensures r.Some? ==> from <= r.value && OccursAt(s, sep, r.value)
    ensures r.Some? ==> forall j :: from <= j < r.value ==> !OccursAt(s, sep, j)
    ensures r.None? ==> forall j :: from <= j ==> !OccursAt(s, sep, j)
    decreases |s| - from
  {
    if from + |sep| > |s| then None
    else if s[from..from + |sep|] == sep then Some(from)
    else FindFrom(s, sep, from + 1)
  }

  /** The pieces of `s[p..]` when split by `sep`, left to right, without overlaps. */
  function SplitFrom(s: string, sep: string, p: nat): (parts: seq<string>)
    requires |sep| > 0 && p <= |s|
    ensures |parts| >= 1
    decreases |s| - p
  {
    match FindFrom(s, sep, p)
    case None => [s[p..]]
    case Some(i) => [s[p..i]] + SplitFrom(s, sep, i + |sep|)
  }

  /** `s.split(sep)` for a non-empty string separator. */
  function Split(s: string, sep: string): (parts: seq<string>)
    requires |sep| > 0
    ensures |parts| >= 1
  {
    SplitFrom(s, sep, 0)
  }

  /** `parts.join(sep)`; `JoinSplit` proves it a left inverse of `Split`. */
  function Join(parts: seq<string>, sep: string): string
  {
    if |parts| == 0 then ""
    else if |parts| == 1 then parts[0]
    else parts[0] + sep + Join(parts[1..], sep)
  }

  /**
    `request.headers?.authorization?.split('Bearer ')[1]`: an absent header
    gives `undefined` (None), and so does a header with a single piece.
   */
  function ExtractToken(authorization: Option<string>): Option<string>
  {
    match authorization
    case None => None
    case Some(h) =>
      var parts := Split(h, Bearer);
      if |parts| > 1 then Some(parts[1]) else None
  }

  // ---------------------------------------------------------------------------
  // Properties of Split

  /** Joining the pieces with the separator gives the original string back. */
  lemma {:induction false} JoinSplitFrom(s: string, sep: string, p: nat)
    requires |sep| > 0 && p <= |s|
    ensures Join(SplitFrom(s, sep, p), sep) == s[p..]
    decreases |s| - p
  {
    match FindFrom(s, sep, p)
    case None =>
    case Some(i) =>
      assert SplitFrom(s, sep, p) == [s[p..i]] + SplitFrom(s, sep, i + |sep|);
      JoinSplitFrom(s, sep, i + |sep|);
      JoinCons(s[p..i], SplitFrom(s, sep, i + |sep|), sep);
      SliceAround(s, p, i, i + |sep|);
  }

  /** Joining a list with a head: the head, the separator, the rest joined. */
  lemma JoinCons(x: string, rest: seq<string>, sep: string)
    requires |rest| >= 1
    ensures Join([x] + rest, sep) == x + sep + Join(rest, sep)
  {
    assert ([x] + rest)[1..] == rest;
  }

  lemma SliceAround(s: string, p: nat, i: nat, e: nat)
    requires p <= i <= e <= |s|
    ensures s[p..] == s[p..i] + s[i..e] + s[e..]
  {
  }

  lemma JoinSplit(s: string, sep: string)
    requires |sep| > 0
    ensures Join(Split(s, sep), sep) == s
  {
    JoinSplitFrom(s, sep, 0);
  }

  /** An occurrence inside a slice is an occurrence in the whole string. */
  lemma OccursInSlice(s: string, sep: string, p: nat, q: nat, j: int)
    requires p <= q <= |s|
    requires OccursAt(s[p..q], sep, j)
    ensures OccursAt(s, sep, p + j)
  {
    forall k | 0 <= k < |sep| ensures s[p + j + k] == sep[k] {
      assert s[p..q][j..j + |sep|][k] == sep[k];
    }
    assert s[p + j..p + j + |sep|] == sep;
  }

  /** One differing character rules out an occurrence. */
  lemma NotOccursAt(s: string, sep: string, i: nat, k: nat)
    requires k < |sep| && i + k < |s| && s[i + k] != sep[k]
    ensures !OccursAt(s, sep, i)
  {
  }

  /** No piece of a split contains the separator. */
  lemma {:induction false} SplitFromPiecesFree(s: string, sep: string, p: nat, k: nat)
    requires |sep| > 0 && p <= |s|
    requires k < |SplitFrom(s, sep, p)|
    ensures !Occurs(SplitFrom(s, sep, p)[k], sep)
    decreases |s| - p
  {
    match FindFrom(s, sep, p)
    case None =>
      assert s[p..] == s[p..|s|];
      if j :| OccursAt(s[p..], sep, j) {
        OccursInSlice(s, sep, p, |s|, j);
      }
    case Some(i) =>
      if k == 0 {
        if j :| OccursAt(s[p..i], sep, j) {
          OccursInSlice(s, sep, p, i, j);
        }
      } else {
        SplitFromPiecesFree(s, sep, i + |sep|, k - 1);
      }
  }

  lemma SplitPiecesFree(s: string, sep: string, k: nat)
    requires |sep| > 0 && k < |Split(s, sep)|
    ensures !Occurs(Split(s, sep)[k], sep)
  {
    SplitFromPiecesFree(s, sep, 0, k);
  }

  /** A string without the separator splits into itself alone. */
  lemma SplitWithoutSeparator(s: string, sep: string)
    requires |sep| > 0 && !Occurs(s, sep)
    ensures Split(s, sep) == [s]
  {
  }

  // ---------------------------------------------------------------------------
  // Properties of the token extraction

  /** No header, or no "Bearer " anywhere in it: the token is undefined. */
  lemma NoBearerNoToken(authorization: Option<string>)
    requires authorization.None? || !Occurs(authorization.value, Bearer)
    ensures ExtractToken(authorization).None?
  {
    if authorization.Some? {
      SplitWithoutSeparator(authorization.value, Bearer);
    }
  }

  /** Conversely, an undefined token means no "Bearer " occurs in the header. */
  lemma NoTokenNoBearer(authorization: Option<string>)
    requires ExtractToken(authorization).None?
    ensures authorization.None? || !Occurs(authorization.value, Bearer)
  {
    if authorization.Some? {
      var h := authorization.value;
      var i := FindFrom(h, Bearer, 0);
      if i.Some? {
        assert |SplitFrom(h, Bearer, 0)| > 1;
      }
    }
  }

  /**
    With a first occurrence of "Bearer " at `i`, the token is the text after
    it up to `e`, where `e` is the next occurrence or the end of the header.
    "Bearer " need not be a prefix of the header.
   */
  lemma TokenIsSecondPiece(h: string, i: nat, e: nat)
    requires OccursAt(h, Bearer, i)
    requires forall j :: 0 <= j < i ==> !OccursAt(h, Bearer, j)
    requires i + |Bearer| <= e <= |h|
    requires e == |h| || OccursAt(h, Bearer, e)
    requires forall j :: i + |Bearer| <= j < e ==> !OccursAt(h, Bearer, j)
    ensures ExtractToken(Some(h)) == Some(h[i + |Bearer|..e])
  {
    var st := i + |Bearer|;
    assert FindFrom(h, Bearer, 0) == Some(i);
    if e == |h| {
      assert FindFrom(h, Bearer, st) == None;
      assert SplitFrom(h, Bearer, st) == [h[st..]];
      assert h[st..] == h[st..e];
    } else {
      assert FindFrom(h, Bearer, st) == Some(e);
      assert SplitFrom(h, Bearer, st)[0] == h[st..e];
    }
    assert Split(h, Bearer) == [h[0..i]] + SplitFrom(h, Bearer, st);
    assert Split(h, Bearer)[1] == SplitFrom(h, Bearer, st)[0];
  }

  /** The token never contains "Bearer " itself. */
  lemma TokenHasNoBearer(authorization: Option<string>)
    requires ExtractToken(authorization).Some?
    ensures !Occurs(ExtractToken(authorization).value, Bearer)
  {
    SplitPiecesFree(authorization.value, Bearer, 1);
  }

  lemma ExtractPrefixed()
    ensures ExtractToken(Some("Bearer abc")) == Some("abc")
  {
    TokenIsSecondPiece("Bearer abc", 0, 10);
  }

  lemma ExtractEmptyToken()
    ensures ExtractToken(Some("Bearer ")) == Some("")
  {
    TokenIsSecondPiece("Bearer ", 0, 7);
  }

  lemma ExtractOtherScheme()
    ensures ExtractToken(Some("Basic abc")) == None
  {
    var h := "Basic abc";
    NotOccursAt(h, Bearer, 0, 1);
    NotOccursAt(h, Bearer, 1, 0);
    NotOccursAt(h, Bearer, 2, 0);
    assert forall j :: !OccursAt(h, Bearer, j) by {
      forall j ensures !OccursAt(h, Bearer, j) {
        if 3 <= j { assert j + |Bearer| > |h|; }
      }
    }
    NoBearerNoToken(Some(h));
  }

  lemma MiddleSegmentOccurrences(h: string)
    requires h == "x " + Bearer + "a " + Bearer + "b"
    ensures OccursAt(h, Bearer, 2) && OccursAt(h, Bearer, 11) && h[9..11] == "a "
    ensures forall j :: 0 <= j < 2 ==> !OccursAt(h, Bearer, j)
    ensures forall j :: 9 <= j < 11 ==> !OccursAt(h, Bearer, j)
  {
    assert h[2..9] == Bearer;
    assert h[11..18] == Bearer;
    NotOccursAt(h, Bearer, 0, 0);
    NotOccursAt(h, Bearer, 1, 0);
    NotOccursAt(h, Bearer, 9, 0);
    NotOccursAt(h, Bearer, 10, 0);
  }

  lemma ExtractMiddleSegment()
    ensures ExtractToken(Some("x Bearer a Bearer b")) == Some("a ")
  {
    var h := "x " + Bearer + "a " + Bearer + "b";
    assert h == "x Bearer a Bearer b";
    MiddleSegmentOccurrences(h);
    TokenIsSecondPiece(h, 2, 11);
  }
}
