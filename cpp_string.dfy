/**
 * The parts of std::string and std::getline that the core relies on:
 * find, find_first_not_of, find_last_not_of, and splitting a stream into lines.
 */
module CppString {
  import opened Wrappers

  /** `pat` occurs in `s` starting at index `i`. */
  predicate MatchesAt(s: string, pat: string, i: nat)
  {
    i + |pat| <= |s| && s[i..i + |pat|] == pat
  }

  /** A pattern does not match where one of its characters differs. */
  lemma {:induction false} MismatchAt(s: string, pat: string, i: nat, k: nat)
    requires k < |pat| && i + k < |s| && s[i + k] != pat[k]
    ensures !MatchesAt(s, pat, i)
  {
  }

  /** A match of `pat` inside the middle part `t` of a text is a match in `t`. */
  lemma {:induction false} MatchesAtInfix(pre: string, t: string, post: string, pat: string, i: nat)
    requires i + |pat| <= |t|
    ensures MatchesAt(pre + t + post, pat, |pre| + i) == MatchesAt(t, pat, i)
  {
    assert (pre + t + post)[|pre| + i..|pre| + i + |pat|] == t[i..i + |pat|];
  }

  /** `pat` occurs somewhere in `s`. */
  ghost predicate Occurs(s: string, pat: string)
  {
    exists i: nat :: MatchesAt(s, pat, i)
  }

  /** std::string::find(pat): the first index at which `pat` occurs, None for npos. */
  function Find(s: string, pat: string): (r: Option<nat>)
    ensures r.Some? ==> MatchesAt(s, pat, r.value)
    ensures r.Some? ==> forall j: nat :: j < r.value ==> !MatchesAt(s, pat, j)
    ensures r.None? ==> forall j: nat :: !MatchesAt(s, pat, j)
    ensures r.Some? <==> Occurs(s, pat)
  {
    FindFrom(s, pat, 0)
  }

  /** The first occurrence of `pat` at an index of at least `k`. */
  function FindFrom(s: string, pat: string, k: nat): (r: Option<nat>)
    ensures r.Some? ==> k <= r.value && MatchesAt(s, pat, r.value)
    ensures r.Some? ==> forall j: nat :: k <= j < r.value ==> !MatchesAt(s, pat, j)
    ensures r.None? ==> forall j: nat :: k <= j ==> !MatchesAt(s, pat, j)
    decreases |s| - k
  {
    if k + |pat| > |s| then None
    else if s[k..k + |pat|] == pat then Some(k)
    else FindFrom(s, pat, k + 1)
  }

  /** std::string::find_first_not_of(c): the first index whose character is not `c`. */
  function FindFirstNotOf(s: string, c: char): (r: Option<nat>)
    ensures r.Some? ==> r.value < |s| && s[r.value] != c
    ensures r.Some? ==> forall j :: 0 <= j < r.value ==> s[j] == c
    ensures r.None? ==> forall j :: 0 <= j < |s| ==> s[j] == c
  {
    if s == [] then None
    else if s[0] != c then Some(0)
    else match FindFirstNotOf(s[1..], c)
      case None => None
      case Some(i) => Some(i + 1)
  }

  /** std::string::find_last_not_of(c): the last index whose character is not `c`. */
  function FindLastNotOf(s: string, c: char): (r: Option<nat>)
    ensures r.Some? ==> r.value < |s| && s[r.value] != c
    ensures r.Some? ==> forall j :: r.value < j < |s| ==> s[j] == c
    ensures r.None? ==> forall j :: 0 <= j < |s| ==> s[j] == c
  {
    if s == [] then None
    else if s[|s| - 1] != c then Some(|s| - 1)
    else FindLastNotOf(s[..|s| - 1], c)
  }

  /**
   * The lines that successive std::getline calls return from a stream holding `buf`:
   * each line ends before a '\n' (which is consumed), and a last line without a
   * terminating '\n' is still returned when it is not empty.
   */
  function Lines(buf: string): (r: seq<string>)
    ensures forall k :: 0 <= k < |r| ==> '\n' !in r[k]
    decreases |buf|
  {
    if buf == [] then []
    else match Find(buf, "\n")
      case None =>
        NewlineFreePrefix(buf, |buf|);
        [buf]
      case Some(i) =>
        NewlineFreePrefix(buf, i);
        [buf[..i]] + Lines(buf[i + 1..])
  }

  /** Before the first "\n" that find reports there is no '\n'. */
  lemma {:induction false} NewlineFreePrefix(s: string, i: nat)
    requires i <= |s| && forall j: nat :: j < i ==> !MatchesAt(s, "\n", j)
    ensures '\n' !in s[..i]
  {
    forall k | 0 <= k < i
      ensures s[..i][k] != '\n'
    {
      assert s[k..k + 1] == [s[k]];
      assert !MatchesAt(s, "\n", k);
    }
  }

  /** The text written by streaming each of `ls` followed by "\n". */
  function JoinLines(ls: seq<string>): string
  {
    if ls == [] then [] else ls[0] + "\n" + JoinLines(ls[1..])
  }

  /** A pattern right after a text that lacks its first character is found right there. */
  lemma {:induction false} FindAfterFree(k: string, pat: string, rest: string)
    requires pat != [] && pat[0] !in k
    ensures Find(k + pat + rest, pat) == Some(|k|)
  {
    var s := k + pat + rest;
    assert s[|k|..|k| + |pat|] == pat;
    assert MatchesAt(s, pat, |k|);
    forall j: nat | j < |k|
      ensures !MatchesAt(s, pat, j)
    {
      assert s[j] == k[j];
    }
  }

  /**
   * A pattern right after a text `k` is found right there when it does not
   * already occur in `k + pat` at a position inside `k`.
   */
  lemma {:induction false} FindAfterUnmatched(k: string, pat: string, rest: string)
    requires forall j :: 0 <= j < |k| ==> !MatchesAt(k + pat, pat, j)
    ensures Find(k + pat + rest, pat) == Some(|k|)
  {
    var s := k + pat + rest;
    assert s[|k|..|k| + |pat|] == pat;
    assert MatchesAt(s, pat, |k|);
    forall j: nat | j < |k|
      ensures !MatchesAt(s, pat, j)
    {
      MatchesAtInfix([], k + pat, rest, pat, j);
      assert [] + (k + pat) + rest == s;
    }
  }

  /** The first '\n' after a line without one is the one ending it. */
  lemma NewlineFreeFind(l: string, rest: string)
    requires '\n' !in l
    ensures Find(l + "\n" + rest, "\n") == Some(|l|)
  {
    FindAfterFree(l, "\n", rest);
  }

  /** A line terminated by '\n' is read back as one line, followed by the lines of the rest. */
  lemma LinesCons(l: string, more: string)
    requires '\n' !in l
    ensures Lines(l + "\n" + more) == [l] + Lines(more)
  {
    var buf := l + "\n" + more;
    NewlineFreeFind(l, more);
    assert buf[..|l|] == l;
    assert buf[|l| + 1..] == more;
  }

  /** Writing a first line, then the others, then `tail`. */
  lemma {:induction false} JoinLinesCons(ls: seq<string>, tail: string)
    requires ls != []
    ensures JoinLines(ls) + tail == ls[0] + "\n" + (JoinLines(ls[1..]) + tail)
  {
  }

  /** One written line in front of lines that read back as `rest` reads back as it, then `rest`. */
  lemma {:induction false} LinesOfJoinStep(ls: seq<string>, tail: string, rest: seq<string>)
    requires ls != [] && '\n' !in ls[0]
    requires Lines(JoinLines(ls[1..]) + tail) == rest
    ensures Lines(JoinLines(ls) + tail) == [ls[0]] + rest
  {
    JoinLinesCons(ls, tail);
    LinesCons(ls[0], JoinLines(ls[1..]) + tail);
  }

  /** A non-empty sequence is its head followed by its rest. */
  lemma {:induction false} ConsRest<T>(ls: seq<T>, r: seq<T>)
    requires ls != []
    ensures [ls[0]] + (ls[1..] + r) == ls + r
  {
    assert [ls[0]] + ls[1..] == ls;
  }

  /** Reading back lines that were written one per "\n" yields them, then whatever follows. */
  lemma {:induction false} LinesOfJoin(ls: seq<string>, tail: string)
    requires forall i :: 0 <= i < |ls| ==> '\n' !in ls[i]
    ensures Lines(JoinLines(ls) + tail) == ls + Lines(tail)
    decreases |ls|
  {
    if ls == [] {
      assert JoinLines(ls) + tail == tail;
      assert ls + Lines(tail) == Lines(tail);
    } else {
      LinesOfJoin(ls[1..], tail);
      LinesOfJoinStep(ls, tail, ls[1..] + Lines(tail));
      ConsRest(ls, Lines(tail));
    }
  }
}
