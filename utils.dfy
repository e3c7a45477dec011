/**
 * The string and console helpers of utils.cpp: lower-casing, case-insensitive
 * search, trimming spaces, the padding that centres a header line, the range
 * check of the validated-input loops and the confirmation rule of the "back"
 * command.
 */
module Utils {
  import opened Wrappers
  import opened CppString
  import opened CppNumeric

  /** ::tolower in the "C" locale: 'A'..'Z' become 'a'..'z', every other character is kept. */
  function LowerChar(c: char): (r: char)
    ensures !('A' <= r <= 'Z')
    ensures r != c <==> 'A' <= c <= 'Z'
    ensures 'A' <= c <= 'Z' ==> r as int - c as int == 'a' as int - 'A' as int
  {
    if 'A' <= c <= 'Z' then (c as int - 'A' as int + 'a' as int) as char else c
  }

  /** toLower: every character of `s` lower-cased on its own; the length is kept. */
  function ToLower(s: string): (r: string)
    ensures |r| == |s|
    ensures forall i :: 0 <= i < |s| ==> r[i] == LowerChar(s[i])
    decreases |s|
  {
    if s == [] then [] else [LowerChar(s[0])] + ToLower(s[1..])
  }

  /** Lower-casing a lower-cased string changes nothing. */
  lemma {:induction false} ToLowerIdempotent(s: string)
    ensures ToLower(ToLower(s)) == ToLower(s)
  {
    var once := ToLower(s);
    var twice := ToLower(once);
    forall i | 0 <= i < |s|
      ensures twice[i] == once[i]
    {
      assert once[i] == LowerChar(s[i]);
    }
  }

  /** A lower-cased string holds no upper-case letter. */
  lemma {:induction false} ToLowerHasNoUpper(s: string)
    ensures forall i :: 0 <= i < |s| ==> !('A' <= ToLower(s)[i] <= 'Z')
  {
    forall i | 0 <= i < |s|
      ensures !('A' <= ToLower(s)[i] <= 'Z')
    {
      assert ToLower(s)[i] == LowerChar(s[i]);
    }
  }

  /** isSimilar: `word` occurs in `text` when both are lower-cased. */
  function IsSimilar(word: string, text: string): (r: bool)
    ensures r <==> Occurs(ToLower(text), ToLower(word))
  {
    Find(ToLower(text), ToLower(word)).Some?
  }

  /** isSimilar ignores case on both sides: lower-casing either argument first changes nothing. */
  lemma {:induction false} IsSimilarIgnoresCase(word: string, text: string)
    ensures IsSimilar(ToLower(word), ToLower(text)) == IsSimilar(word, text)
  {
    ToLowerIdempotent(word);
    ToLowerIdempotent(text);
  }

  /** The empty search word is similar to every text. */
  lemma {:induction false} IsSimilarEmptyWord(text: string)
    ensures IsSimilar([], text)
  {
    assert ToLower([]) == [];
    assert MatchesAt(ToLower(text), [], 0);
  }

  /** A word occurring verbatim in the text is similar to it. */
  lemma {:induction false} IsSimilarOfInfix(pre: string, word: string, post: string)
    ensures IsSimilar(word, pre + word + post)
  {
    var t := ToLower(pre + word + post);
    var w := ToLower(word);
    assert t[|pre|..|pre| + |w|] == w by {
      forall i | 0 <= i < |w|
        ensures t[|pre| + i] == w[i]
      {
        assert (pre + word + post)[|pre| + i] == word[i];
      }
    }
    assert MatchesAt(t, w, |pre|);
  }

  /** `s` has a character other than ' '. */
  predicate HasNonSpace(s: string)
  {
    exists i :: 0 <= i < |s| && s[i] != ' '
  }

  /**
   * trim: `s` from its first to its last character other than ' '; a string
   * that is empty or all spaces comes back unchanged.
   */
  function Trim(s: string): (r: string)
    ensures !HasNonSpace(s) ==> r == s
    ensures HasNonSpace(s) ==> r != [] && r[0] != ' ' && r[|r| - 1] != ' '
  {
    match FindFirstNotOf(s, ' ')
    case None => s
    case Some(first) =>
      var last := FindLastNotOf(s, ' ').value;
      s[first..last + 1]
  }

  /**
   * When `s` has a character other than ' ', trim removes exactly a run of
   * spaces at each end: `s` is `a` spaces, the result, and `b` spaces.
   */
  lemma {:induction false} TrimSplit(s: string) returns (a: nat, b: nat)
    requires HasNonSpace(s)
    ensures a + |Trim(s)| + b == |s|
    ensures s == s[..a] + Trim(s) + s[a + |Trim(s)|..]
    ensures forall k :: 0 <= k < a ==> s[k] == ' '
    ensures forall k :: a + |Trim(s)| <= k < |s| ==> s[k] == ' '
  {
    var first := FindFirstNotOf(s, ' ').value;
    var last := FindLastNotOf(s, ' ').value;
    a, b := first, |s| - 1 - last;
    assert s == s[..first] + s[first..last + 1] + s[last + 1..];
  }

  /** Only ' ' is removed: a tab or a newline at either end stays. */
  lemma {:induction false} TrimKeepsOtherBlanks(s: string)
    requires s != [] && s[0] == '\t'
    ensures Trim(s) != [] && Trim(s)[0] == '\t'
  {
    assert s[0] != ' ';
    assert FindFirstNotOf(s, ' ') == Some(0);
  }

  /** Trimming twice is trimming once. */
  lemma {:induction false} TrimIdempotent(s: string)
    ensures Trim(Trim(s)) == Trim(s)
  {
    if HasNonSpace(s) {
      var t := Trim(s);
      assert t[0] != ' ';
      assert FindFirstNotOf(t, ' ') == Some(0);
      assert FindLastNotOf(t, ' ') == Some(|t| - 1);
      assert t[0..|t|] == t;
    }
  }

  /** The inner width of the header box. */
  const HeaderWidth := 77

  /** C++ integer division, which truncates toward zero. */
  function CDiv(a: int, b: int): (q: int)
    requires b > 0
    ensures a >= 0 ==> q * b <= a < q * b + b
    ensures a < 0 ==> q * b - b < a <= q * b
  {
    if a >= 0 then a / b else -((-a) / b)
  }

  /**
   * The padding printCentered puts left and right of a line of `n`
   * characters: the line is centred in HeaderWidth columns, any odd column
   * going right, and a line too wide for the box gets no padding.
   */
  function CenterPads(n: nat): (pads: (nat, nat))
    ensures n <= HeaderWidth ==> pads.0 + n + pads.1 == HeaderWidth && pads.0 <= pads.1 <= pads.0 + 1
    ensures n > HeaderWidth ==> pads.0 == 0 && pads.1 == 0
  {
    var pad := CDiv(HeaderWidth - n, 2);
    var left := if pad < 0 then 0 else pad;
    var right := if HeaderWidth - left - n > 0 then HeaderWidth - left - n else 0;
    (left, right)
  }

  /** `k` spaces. */
  function Spaces(k: nat): (r: string)
    ensures |r| == k && forall i :: 0 <= i < k ==> r[i] == ' '
  {
    if k == 0 then [] else Spaces(k - 1) + " "
  }

  /**
   * The text printCentered prints between the box's borders: `s` starts at
   * half the slack (rounded down) and everything around it is spaces; a line
   * wider than the box is printed as it is.
   */
  function CenteredText(s: string): (r: string)
    ensures |s| <= HeaderWidth ==> |r| == HeaderWidth
    ensures |s| > HeaderWidth ==> r == s
    ensures var left := (|r| - |s|) / 2;
            left + |s| <= |r| && r[left..left + |s|] == s
            && (forall j :: 0 <= j < left ==> r[j] == ' ')
            && (forall j :: left + |s| <= j < |r| ==> r[j] == ' ')
  {
    var pads := CenterPads(|s|);
    PaddedChars(pads.0, s, pads.1);
    Spaces(pads.0) + s + Spaces(pads.1)
  }

  /** The characters of a padded string, position by position. */
  lemma {:induction false} PaddedChars(a: nat, s: string, b: nat)
    ensures |Spaces(a) + s + Spaces(b)| == a + |s| + b
    ensures forall j :: 0 <= j < a ==> (Spaces(a) + s + Spaces(b))[j] == ' '
    ensures (Spaces(a) + s + Spaces(b))[a..a + |s|] == s
    ensures forall j :: a + |s| <= j < a + |s| + b ==> (Spaces(a) + s + Spaces(b))[j] == ' '
  {
    var t := Spaces(a) + s + Spaces(b);
    forall j | a + |s| <= j < a + |s| + b
      ensures t[j] == ' '
    {
      assert t[j] == Spaces(b)[j - a - |s|];
    }
  }

  /**
   * The range check of getValidInt: a value is accepted unless it is below a
   * minimum that is not -1 or above a maximum that is not -1.
   */
  predicate IntInRange(v: int, min: int, max: int)
  {
    !((min != -1 && v < min) || (max != -1 && v > max))
  }

  /** The range check of getValidDouble, with -1.0 disabling a bound. */
  predicate RealInRange(v: real, min: real, max: real)
  {
    !((min != -1.0 && v < min) || (max != -1.0 && v > max))
  }

  /** -1 switches a bound off: the check is "at least min" and "at most max" for the bounds in use. */
  lemma {:induction false} IntInRangeBounds(v: int, min: int, max: int)
    ensures IntInRange(v, min, max) <==> (min == -1 || v >= min) && (max == -1 || v <= max)
    ensures min == -1 && max == -1 ==> IntInRange(v, min, max)
  {
  }

  /** -1.0 switches a bound off: the check is "at least min" and "at most max" for the bounds in use. */
  lemma {:induction false} RealInRangeBounds(v: real, min: real, max: real)
    ensures RealInRange(v, min, max) <==> (min == -1.0 || v >= min) && (max == -1.0 || v <= max)
    ensures min == -1.0 && max == -1.0 ==> RealInRange(v, min, max)
  {
  }

  /** The position of the first attempt that parsed and is in range, if any. */
  function FirstAcceptedInt(attempts: seq<Option<Int32>>, min: Int32, max: Int32, i: nat): (r: Option<nat>)
    requires i <= |attempts|
    ensures r.Some? ==> i <= r.value < |attempts| && attempts[r.value].Some?
                        && IntInRange(attempts[r.value].value, min, max)
    ensures forall j :: i <= j < (if r.Some? then r.value else |attempts|) ==>
              attempts[j].None? || !IntInRange(attempts[j].value, min, max)
    decreases |attempts| - i
  {
    if i == |attempts| then None
    else if attempts[i].Some? && IntInRange(attempts[i].value, min, max) then Some(i)
    else FirstAcceptedInt(attempts, min, max, i + 1)
  }

  /**
   * getValidInt over the values successive `cin >> value` reads produce
   * (None where the read fails, which includes text outside the int range): it loops until a value passes the range
   * check and returns it with the number of reads used; when the reads run
   * out first it returns None.
   */
  method GetValidInt(attempts: seq<Option<Int32>>, min: Int32, max: Int32) returns (r: Option<(Int32, nat)>)
    ensures r.Some? ==> IntInRange(r.value.0, min, max)
    ensures r.Some? <==> FirstAcceptedInt(attempts, min, max, 0).Some?
    ensures r.Some? ==> r.value.1 == FirstAcceptedInt(attempts, min, max, 0).value + 1
                        && Some(r.value.0) == attempts[r.value.1 - 1]
  {
    var i := 0;
    while i < |attempts|
      invariant i <= |attempts|
      invariant FirstAcceptedInt(attempts, min, max, i) == FirstAcceptedInt(attempts, min, max, 0)
    {
      var read := attempts[i];
      i := i + 1;
      if read.None? {
        continue;
      }
      if (min != -1 && read.value < min) || (max != -1 && read.value > max) {
        continue;
      }
      return Some((read.value, i));
    }
    return None;
  }

  /** The position of the first attempt that parsed and is in range, for getValidDouble. */
  function FirstAcceptedReal(attempts: seq<Option<real>>, min: real, max: real, i: nat): (r: Option<nat>)
    requires i <= |attempts|
    ensures r.Some? ==> i <= r.value < |attempts| && attempts[r.value].Some?
                        && RealInRange(attempts[r.value].value, min, max)
    ensures forall j :: i <= j < (if r.Some? then r.value else |attempts|) ==>
              attempts[j].None? || !RealInRange(attempts[j].value, min, max)
    decreases |attempts| - i
  {
    if i == |attempts| then None
    else if attempts[i].Some? && RealInRange(attempts[i].value, min, max) then Some(i)
    else FirstAcceptedReal(attempts, min, max, i + 1)
  }

  /** getValidDouble: as GetValidInt, over real values and -1.0 bounds. */
  method GetValidDouble(attempts: seq<Option<real>>, min: real, max: real) returns (r: Option<(real, nat)>)
    ensures r.Some? ==> RealInRange(r.value.0, min, max)
    ensures r.Some? <==> FirstAcceptedReal(attempts, min, max, 0).Some?
    ensures r.Some? ==> r.value.1 == FirstAcceptedReal(attempts, min, max, 0).value + 1
                        && Some(r.value.0) == attempts[r.value.1 - 1]
  {
    var i := 0;
    while i < |attempts|
      invariant i <= |attempts|
      invariant FirstAcceptedReal(attempts, min, max, i) == FirstAcceptedReal(attempts, min, max, 0)
    {
      var read := attempts[i];
      i := i + 1;
      if read.None? {
        continue;
      }
      if (min != -1.0 && read.value < min) || (max != -1.0 && read.value > max) {
        continue;
      }
      return Some((read.value, i));
    }
    return None;
  }

  /**
   * checkForBack: true exactly when the input is the back command "b" (in
   * either case) and the confirmation read after asking is 'y' (in either case).
   */
  function CheckForBack(input: string, confirm: char): (r: bool)
    ensures r <==> ToLower(input) == "b" && LowerChar(confirm) == 'y'
  {
    if input == "b" || input == "B" then confirm == 'y' || confirm == 'Y' else false
  }
}
