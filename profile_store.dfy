/**
 * The per-user data file of profile.cpp: the USER_PROFILE block that is
 * written, the line-by-line loader (with the username taken from the file
 * name), and the weight update that rewrites the block in place at the start
 * of the file.
 */
module ProfileStore {
  import opened Wrappers
  import opened CppString
  import opened CppNumeric
  import opened Models
  import opened Targets
  import opened Utils

  /** A per-user data file: whether it can be opened, and its text. */
  class DataFile {
    var present: bool
    var content: string
  }

  // ---------------------------------------------------------------------------
  // writeProfileBlock

  /**
   * The lines writeProfileBlock writes, each followed by "\n": nine lines,
   * the marker first and the blank line that ends the block last.
   */
  function BlockLines(d: ProfileData): (r: seq<string>)
    ensures |r| == 9 && r[0] == "USER_PROFILE" && r[8] == []
  {
    ["USER_PROFILE",
     "Name: " + d.fullName,
     "Age: " + FormatInt(d.age),
     "Gender: " + d.gender,
     "Height: " + FormatInt(d.heightCm),
     "Weight: " + FormatReal(d.weightKg),
     "Activity_Level: " + d.activityLevel,
     "Daily_Calorie_Target: " + FormatInt(TruncToInt(d.caloriesTarget)),
     ""]
  }

  /**
   * writeProfileBlock: the marker, seven "Key: value" lines in a fixed order
   * and a blank line; the calorie target is written truncated to an integer.
   */
  function ProfileBlock(d: ProfileData): (r: string)
    ensures OneLineFields(d) ==> Lines(r) == BlockLines(d)
  {
    if OneLineFields(d) then
      BlockLinesOneLine(d);
      LinesOfJoin(BlockLines(d), []);
      assert JoinLines(BlockLines(d)) + [] == JoinLines(BlockLines(d));
      JoinLines(BlockLines(d))
    else
      JoinLines(BlockLines(d))
  }

  /** The text fields of a profile fit on one line each. */
  predicate OneLineFields(d: ProfileData)
  {
    '\n' !in d.fullName && '\n' !in d.gender && '\n' !in d.activityLevel
  }

  /** A one-line key followed by a one-line value is one line. */
  lemma {:induction false} JoinedOneLine(key: string, val: string)
    requires '\n' !in key && '\n' !in val
    ensures '\n' !in key + val
  {
    forall c | c in key + val
      ensures c != '\n'
    {
      assert c in key || c in val;
    }
  }

  /** The marker and the keys of the block have no line break. */
  lemma {:induction false} KeysOneLine()
    ensures '\n' !in "USER_PROFILE" && '\n' !in "Name: " && '\n' !in "Age: " && '\n' !in "Gender: "
    ensures '\n' !in "Height: " && '\n' !in "Weight: " && '\n' !in "Activity_Level: "
    ensures '\n' !in "Daily_Calorie_Target: "
  {
  }

  /** With one-line text fields, no block line holds a line break. */
  lemma {:induction false} BlockLinesOneLine(d: ProfileData)
    requires OneLineFields(d)
    ensures forall i :: 0 <= i < |BlockLines(d)| ==> '\n' !in BlockLines(d)[i]
  {
    var ls := BlockLines(d);
    KeysOneLine();
    JoinedOneLine("Name: ", d.fullName);
    JoinedOneLine("Age: ", FormatInt(d.age));
    JoinedOneLine("Gender: ", d.gender);
    JoinedOneLine("Height: ", FormatInt(d.heightCm));
    JoinedOneLine("Weight: ", FormatReal(d.weightKg));
    JoinedOneLine("Activity_Level: ", d.activityLevel);
    JoinedOneLine("Daily_Calorie_Target: ", FormatInt(TruncToInt(d.caloriesTarget)));
  }

  /** A profile with one-line text fields is written as exactly its block lines. */
  lemma {:induction false} ProfileBlockLines(d: ProfileData, tail: string)
    requires OneLineFields(d)
    ensures Lines(ProfileBlock(d) + tail) == BlockLines(d) + Lines(tail)
  {
    BlockLinesOneLine(d);
    LinesOfJoin(BlockLines(d), tail);
  }

  // ---------------------------------------------------------------------------
  // Username inference

  /**
   * The username loadProfileFromFile takes from the file name: the text
   * between the first "user_" and the first "_data", when both occur and that
   * text is not empty; otherwise the current username stays.
   */
  function InferUsername(filename: string, current: string): (r: string)
    ensures var ustart := Find(filename, "user_");
            var uend := Find(filename, "_data");
            if ustart.Some? && uend.Some? && uend.value > ustart.value + 5 then
              r != [] && |r| == uend.value - ustart.value - 5
              && MatchesAt(filename, "user_" + r + "_data", ustart.value)
            else r == current
  {
    var ustart := Find(filename, "user_");
    var uend := Find(filename, "_data");
    if ustart.Some? && uend.Some? && uend.value > ustart.value + 5 then
      var a, b := ustart.value, uend.value;
      assert filename[a..a + 5] == "user_" && filename[b..b + 5] == "_data";
      assert filename[a..b + 5] == filename[a..a + 5] + filename[a + 5..b] + filename[b..b + 5];
      filename[a + 5..b]
    else
      current
  }

  /**
   * The file name a user's data file gets, "user_" + u + "_data" + ext, gives
   * back `u` when `u` is not empty, does not itself hold "_data" and does not
   * start with "data".
   */
  lemma {:induction false} InferUsernameOfDataFile(u: string, ext: string, current: string)
    requires u != [] && forall j: nat :: !MatchesAt(u, "_data", j)
    requires !(|u| >= 4 && u[..4] == "data")
    ensures InferUsername("user_" + u + "_data" + ext, current) == u
  {
    var f := "user_" + u + "_data" + ext;
    assert f[..5] == "user_";
    assert MatchesAt(f, "user_", 0);
    DataMarkerAfterName(u, ext);
    assert f[5..5 + |u|] == u;
  }

  /** In such a file name, the first "_data" is the one right after the username. */
  lemma {:induction false} DataMarkerAfterName(u: string, ext: string)
    requires u != [] && forall j: nat :: !MatchesAt(u, "_data", j)
    requires !(|u| >= 4 && u[..4] == "data")
    ensures Find("user_" + u + "_data" + ext, "_data") == Some(5 + |u|)
  {
    var f := "user_" + u + "_data" + ext;
    assert f == "user_" + u + ("_data" + ext);
    assert f[5 + |u|..10 + |u|] == "_data";
    assert MatchesAt(f, "_data", 5 + |u|);
    forall j: nat | j < 5 + |u|
      ensures !MatchesAt(f, "_data", j)
    {
      if j < 4 {
        MismatchAt(f, "_data", j, 0);
      } else if j == 4 {
        if |u| >= 4 {
          assert f[5..9] == u[..4];
          var k :| 0 <= k < 4 && u[k] != "data"[k];
          MismatchAt(f, "_data", 4, k + 1);
        } else {
          MismatchAt(f, "_data", 4, 1 + |u|);
        }
      } else if j <= |u| {
        MatchesAtInfix("user_", u, "_data" + ext, "_data", j - 5);
      } else {
        MismatchAt(f, "_data", j, 5 + |u| - j);
      }
    }
  }

  /** A username starting with "data" is not recognised: the current username stays. */
  lemma {:induction false} InferUsernameDataPrefix(u: string, ext: string, current: string)
    requires |u| >= 4 && u[..4] == "data"
    ensures InferUsername("user_" + u + "_data" + ext, current) == current
  {
    var f := "user_" + u + "_data" + ext;
    assert f[..5] == "user_";
    assert MatchesAt(f, "user_", 0);
    assert f[4..9] == "_" + u[..4];
    assert MatchesAt(f, "_data", 4);
  }

  // ---------------------------------------------------------------------------
  // loadProfileFromFile

  /** The keys of the profile block. */
  const BlockKeys: seq<string> :=
    ["Name", "Age", "Gender", "Height", "Weight", "Activity_Level", "Daily_Calorie_Target"]

  /**
   * The effect of one "key: value" pair on the profile: the seven keys of the
   * block set their field (Age through stoi, Height, Weight and the calorie
   * target through stod, Height truncated to an integer); any other key
   * changes nothing. None where stoi or stod throws.
   */
  function ApplyField(d: ProfileData, key: string, val: string): (r: Option<ProfileData>)
    ensures r.None? <==> (key == "Age" && ParseInt(val).None?)
                         || ((key == "Height" || key == "Weight" || key == "Daily_Calorie_Target")
                             && ParseReal(val).None?)
    ensures key !in BlockKeys ==> r == Some(d)
    ensures r.Some? ==> r.value.username == d.username && r.value.password == d.password
  {
    if key == "Name" then Some(d.(fullName := val))
    else if key == "Age" then
      match ParseInt(val)
      case None => None
      case Some(a) => Some(d.(age := a))
    else if key == "Gender" then Some(d.(gender := val))
    else if key == "Height" then
      match ParseReal(val)
      case None => None
      case Some(h) => Some(d.(heightCm := TruncToInt(h)))
    else if key == "Weight" then
      match ParseReal(val)
      case None => None
      case Some(w) => Some(d.(weightKg := w))
    else if key == "Activity_Level" then Some(d.(activityLevel := val))
    else if key == "Daily_Calorie_Target" then
      match ParseReal(val)
      case None => None
      case Some(c) => Some(d.(caloriesTarget := c))
    else Some(d)
  }

  /** Each block key stores its value, converted as the key demands, into its own field and no other. */
  lemma {:induction false} ApplyFieldStores(d: ProfileData, key: string, val: string)
    ensures key == "Name" ==> ApplyField(d, key, val) == Some(d.(fullName := val))
    ensures key == "Gender" ==> ApplyField(d, key, val) == Some(d.(gender := val))
    ensures key == "Activity_Level" ==> ApplyField(d, key, val) == Some(d.(activityLevel := val))
    ensures key == "Age" && ParseInt(val).Some? ==> ApplyField(d, key, val) == Some(d.(age := ParseInt(val).value))
    ensures key == "Height" && ParseReal(val).Some?
            ==> ApplyField(d, key, val) == Some(d.(heightCm := TruncToInt(ParseReal(val).value)))
    ensures key == "Weight" && ParseReal(val).Some?
            ==> ApplyField(d, key, val) == Some(d.(weightKg := ParseReal(val).value))
    ensures key == "Daily_Calorie_Target" && ParseReal(val).Some?
            ==> ApplyField(d, key, val) == Some(d.(caloriesTarget := ParseReal(val).value))
  {
  }

  /**
   * One line of the file: split at the first ": " into key and value, and
   * skipped when it has no ": ".
   */
  function ApplyLine(d: ProfileData, line: string): (r: Option<ProfileData>)
    ensures r.Some? ==> r.value.username == d.username && r.value.password == d.password
  {
    match Find(line, ": ")
    case None => Some(d)
    case Some(colon) => ApplyField(d, line[..colon], line[colon + 2..])
  }

  /** How reading the lines ended: at the end or the blank line, or with stoi or stod throwing. */
  datatype ParseResult = Completed(data: ProfileData) | Threw(data: ProfileData)

  /**
   * The read loop from line `i` on: "USER_PROFILE" starts the block, a blank
   * line inside the block ends the reading, and every other line is applied
   * (also before the marker). When a conversion throws, the fields set so far
   * stay set.
   */
  function ParseFrom(lines: seq<string>, i: nat, inProfile: bool, d: ProfileData): (r: ParseResult)
    requires i <= |lines|
    ensures r.data.username == d.username && r.data.password == d.password
    decreases |lines| - i
  {
    if i == |lines| then Completed(d)
    else if lines[i] == "USER_PROFILE" then ParseFrom(lines, i + 1, true, d)
    else if inProfile && lines[i] == [] then Completed(d)
    else
      match ApplyLine(d, lines[i])
      case None => Threw(d)
      case Some(e) => ParseFrom(lines, i + 1, inProfile, e)
  }

  /** How loadProfileFromFile ended. */
  datatype LoadOutcome = OpenFailed | Loaded | LoadThrew

  /**
   * loadProfileFromFile as a function of the file and the profile: nothing
   * changes when the file cannot be opened; otherwise the username is
   * inferred from the file name, the lines are applied, and the targets are
   * recalculated unless a conversion threw. The password is never read.
   */
  function Load(filename: string, present: bool, content: string, d: ProfileData): (r: (LoadOutcome, ProfileData))
    ensures r.0 == OpenFailed <==> !present
    ensures !present ==> r.1 == d
    ensures present ==> r.1.username == InferUsername(filename, d.username)
    ensures r.1.password == d.password
  {
    if !present then (OpenFailed, d)
    else
      var named := d.(username := InferUsername(filename, d.username));
      match ParseFrom(Lines(content), 0, false, named)
      case Completed(e) => (Loaded, MacroTargets(e))
      case Threw(e) => (LoadThrew, e)
  }

  /**
   * A completed load recalculates the targets: the loaded profile is its own
   * MacroTargets, so whatever targets the file held are replaced by the ones
   * its body fields give.
   */
  lemma {:induction false} LoadRecalculates(filename: string, present: bool, content: string, d: ProfileData)
    ensures Load(filename, present, content, d).0 == Loaded
            ==> Load(filename, present, content, d).1 == MacroTargets(Load(filename, present, content, d).1)
  {
    if present {
      var named := d.(username := InferUsername(filename, d.username));
      MacroTargetsIdempotent(ParseFrom(Lines(content), 0, false, named).data);
    }
  }

  /** The key dispatch of the read loop: stores one pair into `p`, or reports that stoi or stod threw. */
  method StoreField(p: UserProfile, key: string, val: string) returns (threw: bool)
    modifies p
    ensures threw <==> ApplyField(old(p.Value()), key, val).None?
    ensures threw ==> p.Value() == old(p.Value())
    ensures !threw ==> p.Value() == ApplyField(old(p.Value()), key, val).value
  {
    threw := false;
    if key == "Name" {
      p.fullName := val;
    } else if key == "Age" {
      var age := ParseInt(val);
      if age.None? {
        return true;
      }
      p.age := age.value;
    } else if key == "Gender" {
      p.gender := val;
    } else if key == "Height" {
      var height := ParseReal(val);
      if height.None? {
        return true;
      }
      p.heightCm := TruncToInt(height.value);
    } else if key == "Weight" {
      var weight := ParseReal(val);
      if weight.None? {
        return true;
      }
      p.weightKg := weight.value;
    } else if key == "Activity_Level" {
      p.activityLevel := val;
    } else if key == "Daily_Calorie_Target" {
      var calories := ParseReal(val);
      if calories.None? {
        return true;
      }
      p.caloriesTarget := calories.value;
    }
  }

  /** One line of the read loop after the marker and blank-line checks: split at ": " and stored. */
  method StoreLine(p: UserProfile, line: string) returns (threw: bool)
    modifies p
    ensures threw <==> ApplyLine(old(p.Value()), line).None?
    ensures threw ==> p.Value() == old(p.Value())
    ensures !threw ==> p.Value() == ApplyLine(old(p.Value()), line).value
  {
    var colon := Find(line, ": ");
    if colon.None? {
      return false;
    }
    threw := StoreField(p, line[..colon.value], line[colon.value + 2..]);
  }

  /** loadProfileFromFile: reads the file line by line into `p`. */
  method LoadProfileFromFile(filename: string, file: DataFile, p: UserProfile) returns (outcome: LoadOutcome)
    modifies p
    ensures (outcome, p.Value()) == Load(filename, file.present, file.content, old(p.Value()))
  {
    if !file.present {
      return OpenFailed;
    }
    var ustart := Find(filename, "user_");
    var uend := Find(filename, "_data");
    if ustart.Some? && uend.Some? && uend.value > ustart.value + 5 {
      p.username := filename[ustart.value + 5..uend.value];
    }
    ghost var named := p.Value();
    assert named == old(p.Value()).(username := InferUsername(filename, old(p.username)));
    var lines := Lines(file.content);
    var inProfile := false;
    var i := 0;
    while i < |lines|
      invariant i <= |lines|
      invariant ParseFrom(lines, i, inProfile, p.Value()) == ParseFrom(lines, 0, false, named)
    {
      var line := lines[i];
      if line == "USER_PROFILE" {
        inProfile := true;
      } else if inProfile && line == [] {
        break;
      } else {
        ghost var before := p.Value();
        var threw := StoreLine(p, line);
        if threw {
          assert ParseFrom(lines, i, inProfile, before) == Threw(before);
          return LoadThrew;
        }
        assert ParseFrom(lines, i, inProfile, before) == ParseFrom(lines, i + 1, inProfile, p.Value());
      }
      i := i + 1;
    }
    assert ParseFrom(lines, 0, false, named) == Completed(p.Value());
    CalcMacroTargets(p);
    return Loaded;
  }

  // ---------------------------------------------------------------------------
  // Properties of the loader

  /** The first ": " of `key + ": "` is the one after `key`. */
  predicate SeparatorEndsKey(key: string)
  {
    forall j :: 0 <= j < |key| ==> !MatchesAt(key + ": ", ": ", j)
  }

  /** A key without ':' is ended by the ": " after it. */
  lemma {:induction false} ColonFreeKey(key: string)
    requires ':' !in key
    ensures SeparatorEndsKey(key)
  {
    forall j | 0 <= j < |key|
      ensures !MatchesAt(key + ": ", ": ", j)
    {
      MismatchAt(key + ": ", ": ", j, 0);
    }
  }

  /** A "key: value" line whose key holds no ": " of its own splits into exactly that key and value. */
  lemma {:induction false} ApplyKeyLine(d: ProfileData, key: string, val: string)
    requires SeparatorEndsKey(key)
    ensures ApplyLine(d, key + ": " + val) == ApplyField(d, key, val)
  {
    var line := key + ": " + val;
    FindAfterUnmatched(key, ": ", val);
    assert line[..|key|] == key;
    assert line[|key| + 2..] == val;
  }

  /** A key line sets its field and the reading goes on. */
  lemma {:induction false} KeyLineStep(lines: seq<string>, i: nat, inProfile: bool, d: ProfileData, key: string, val: string, e: ProfileData)
    requires i < |lines| && lines[i] == key + ": " + val
    requires ':' !in key
    requires ApplyField(d, key, val) == Some(e)
    ensures ParseFrom(lines, i, inProfile, d) == ParseFrom(lines, i + 1, inProfile, e)
  {
    assert lines[i][|key|] == ':';
    assert lines[i] != "USER_PROFILE";
    ColonFreeKey(key);
    ApplyKeyLine(d, key, val);
  }

  /** Keys the block does not use are ignored. */
  lemma {:induction false} UnknownKeyIgnored(d: ProfileData, key: string, val: string)
    requires key !in BlockKeys
    requires SeparatorEndsKey(key)
    ensures ApplyLine(d, key + ": " + val) == Some(d)
  {
    ApplyKeyLine(d, key, val);
  }

  /** Lines without ": " are skipped, also inside the block. */
  lemma {:induction false} LineWithoutSeparatorSkipped(lines: seq<string>, i: nat, inProfile: bool, d: ProfileData)
    requires i < |lines| && lines[i] != [] && lines[i] != "USER_PROFILE"
    requires !Occurs(lines[i], ": ")
    ensures ParseFrom(lines, i, inProfile, d) == ParseFrom(lines, i + 1, inProfile, d)
  {
  }

  /** stoi does not read a word. */
  lemma {:induction false} ParseIntRejectsWord()
    ensures ParseInt("unknown") == None
  {
    assert SpacesEnd("unknown", 0) == 0;
    assert SignEnd("unknown", 0) == 0;
    assert DigitsEnd("unknown", 0) == 0;
  }

  /** An Age line that stoi rejects stops the reading by throwing, with the profile as it was. */
  lemma {:induction false} BadAgeLineThrows(lines: seq<string>, i: nat, inProfile: bool, d: ProfileData, val: string)
    requires i < |lines| && lines[i] == "Age: " + val && ParseInt(val).None?
    ensures ParseFrom(lines, i, inProfile, d) == Threw(d)
  {
    assert lines[i][0] != "USER_PROFILE"[0];
    assert "Age" + ": " + val == "Age: " + val;
    ColonFreeKey("Age");
    ApplyKeyLine(d, "Age", val);
    assert ApplyField(d, "Age", val) == None;
  }

  /** The lines of the file that holds the marker and a non-numeric Age. */
  lemma {:induction false} NonNumericAgeLines()
    ensures Lines(JoinLines(["USER_PROFILE", "Age: unknown"])) == ["USER_PROFILE", "Age: unknown"]
  {
    var ls := ["USER_PROFILE", "Age: unknown"];
    LinesOfJoin(ls, []);
    assert JoinLines(ls) + [] == JoinLines(ls);
  }

  /** A file whose lines are the marker and an Age that stoi cannot read: the reading throws at the Age line. */
  lemma {:induction false} NonNumericAgeParse(lines: seq<string>, d: ProfileData)
    requires lines == ["USER_PROFILE", "Age: unknown"]
    ensures ParseFrom(lines, 0, false, d) == Threw(d)
  {
    ParseIntRejectsWord();
    BadAgeLineThrows(lines, 1, true, d, "unknown");
  }

  /**
   * Loading such a file (JoinLines of those lines, by NonNumericAgeLines)
   * throws, with the targets left as they were.
   */
  lemma {:induction false} NonNumericAgeThrows(filename: string, content: string, d: ProfileData)
    requires Lines(content) == ["USER_PROFILE", "Age: unknown"]
    ensures Load(filename, true, content, d) == (LoadThrew, d.(username := InferUsername(filename, d.username)))
  {
    NonNumericAgeParse(Lines(content), d.(username := InferUsername(filename, d.username)));
  }

  /** A blank line before the marker is skipped. */
  lemma {:induction false} BlankBeforeMarkerSkipped(lines: seq<string>, i: nat, d: ProfileData)
    requires i < |lines| && lines[i] == []
    ensures ParseFrom(lines, i, false, d) == ParseFrom(lines, i + 1, false, d)
  {
    assert Find(lines[i], ": ") == None;
  }

  /**
   * Lines before the marker are applied too, and a blank line there does not
   * stop the reading: only a blank line after "USER_PROFILE" does.
   */
  lemma {:induction false} LinesBeforeMarkerApplied(d: ProfileData, name: string)
    ensures ParseFrom(["", "Name: " + name, "USER_PROFILE", "", "Name: ignored"], 0, false, d)
            == Completed(d.(fullName := name))
  {
    var lines := ["", "Name: " + name, "USER_PROFILE", "", "Name: ignored"];
    BlankBeforeMarkerSkipped(lines, 0, d);
    KeyLineStep(lines, 1, false, d, "Name", name, d.(fullName := name));
    assert lines[2] == "USER_PROFILE" && lines[3] == [];
  }

  /** Storing a key twice leaves what storing only the second value does. */
  lemma {:induction false} ApplyFieldLaterWins(d: ProfileData, key: string, v1: string, v2: string)
    requires ApplyField(d, key, v1).Some? && ApplyField(d, key, v2).Some?
    ensures ApplyField(ApplyField(d, key, v1).value, key, v2) == ApplyField(d, key, v2)
  {
  }

  /**
   * Two consecutive lines with the same key, both of which convert: the
   * reading continues as if only the second had been there.
   */
  lemma {:induction false} DuplicateKeyLines(lines: seq<string>, i: nat, inProfile: bool, d: ProfileData,
                                             key: string, v1: string, v2: string)
    requires i + 1 < |lines| && lines[i] == key + ": " + v1 && lines[i + 1] == key + ": " + v2
    requires ':' !in key
    requires ApplyField(d, key, v1).Some? && ApplyField(d, key, v2).Some?
    ensures ParseFrom(lines, i, inProfile, d) == ParseFrom(lines, i + 2, inProfile, ApplyField(d, key, v2).value)
  {
    var e1 := ApplyField(d, key, v1).value;
    ApplyFieldLaterWins(d, key, v1, v2);
    KeyLineStep(lines, i, inProfile, d, key, v1, e1);
    KeyLineStep(lines, i + 1, inProfile, e1, key, v2, ApplyField(d, key, v2).value);
  }

  /** For example, of two Gender lines in the block the second is kept. */
  lemma {:induction false} LaterDuplicateWins(d: ProfileData, first: string, second: string)
    ensures ParseFrom(["USER_PROFILE", "Gender: " + first, "Gender: " + second], 0, false, d)
            == Completed(d.(gender := second))
  {
    var lines := ["USER_PROFILE", "Gender: " + first, "Gender: " + second];
    GenderStep(lines, 1, d, first);
    GenderStep(lines, 2, d.(gender := first), second);
    assert d.(gender := first).(gender := second) == d.(gender := second);
  }

  /**
   * What reading a written block stores into `d0`: the written fields of
   * `d`, the weight as its six-significant-digit rendering and the calorie
   * target truncated; username, password and the other targets stay.
   */
  function ReadBack(d0: ProfileData, d: ProfileData): ProfileData
  {
    d0.(fullName := d.fullName, age := d.age, gender := d.gender, heightCm := d.heightCm,
        weightKg := RoundSig6(d.weightKg), activityLevel := d.activityLevel,
        caloriesTarget := TruncToInt(d.caloriesTarget) as real)
  }

  /** The written age is read back as written. */
  lemma {:induction false} AgeReadBack(e: ProfileData, age: Int32)
    ensures ApplyField(e, "Age", FormatInt(age)) == Some(e.(age := age))
  {
    ParseIntFormatInt(age);
  }

  /** The written height is read back as written. */
  lemma {:induction false} HeightReadBack(e: ProfileData, height: int)
    ensures ApplyField(e, "Height", FormatInt(height)) == Some(e.(heightCm := height))
  {
    ParseRealFormatInt(height);
    assert TruncToInt(height as real) == height;
  }

  /** The written weight is read back rounded to six significant digits. */
  lemma {:induction false} WeightReadBack(e: ProfileData, weight: real)
    ensures ApplyField(e, "Weight", FormatReal(weight)) == Some(e.(weightKg := RoundSig6(weight)))
  {
    ParseRealFormatReal(weight);
  }

  /** The written calorie target is read back as its truncation. */
  lemma {:induction false} CaloriesReadBack(e: ProfileData, calories: real)
    ensures ApplyField(e, "Daily_Calorie_Target", FormatInt(TruncToInt(calories)))
            == Some(e.(caloriesTarget := TruncToInt(calories) as real))
  {
    ParseRealFormatInt(TruncToInt(calories));
  }

  /** The Name line of a block. */
  lemma {:induction false} NameStep(lines: seq<string>, i: nat, e: ProfileData, name: string)
    requires i < |lines| && lines[i] == "Name: " + name
    ensures ParseFrom(lines, i, true, e) == ParseFrom(lines, i + 1, true, e.(fullName := name))
  {
    KeyLineStep(lines, i, true, e, "Name", name, e.(fullName := name));
  }

  /** The Age line of a block. */
  lemma {:induction false} AgeStep(lines: seq<string>, i: nat, e: ProfileData, age: Int32)
    requires i < |lines| && lines[i] == "Age: " + FormatInt(age)
    ensures ParseFrom(lines, i, true, e) == ParseFrom(lines, i + 1, true, e.(age := age))
  {
    AgeReadBack(e, age);
    KeyLineStep(lines, i, true, e, "Age", FormatInt(age), e.(age := age));
  }

  /** The Gender line of a block. */
  lemma {:induction false} GenderStep(lines: seq<string>, i: nat, e: ProfileData, gender: string)
    requires i < |lines| && lines[i] == "Gender: " + gender
    ensures ParseFrom(lines, i, true, e) == ParseFrom(lines, i + 1, true, e.(gender := gender))
  {
    KeyLineStep(lines, i, true, e, "Gender", gender, e.(gender := gender));
  }

  /** The Height line of a block. */
  lemma {:induction false} HeightStep(lines: seq<string>, i: nat, e: ProfileData, height: int)
    requires i < |lines| && lines[i] == "Height: " + FormatInt(height)
    ensures ParseFrom(lines, i, true, e) == ParseFrom(lines, i + 1, true, e.(heightCm := height))
  {
    HeightReadBack(e, height);
    KeyLineStep(lines, i, true, e, "Height", FormatInt(height), e.(heightCm := height));
  }

  /** The Weight line of a block. */
  lemma {:induction false} WeightStep(lines: seq<string>, i: nat, e: ProfileData, weight: real)
    requires i < |lines| && lines[i] == "Weight: " + FormatReal(weight)
    ensures ParseFrom(lines, i, true, e) == ParseFrom(lines, i + 1, true, e.(weightKg := RoundSig6(weight)))
  {
    WeightReadBack(e, weight);
    KeyLineStep(lines, i, true, e, "Weight", FormatReal(weight), e.(weightKg := RoundSig6(weight)));
  }

  /** The Activity_Level line of a block. */
  lemma {:induction false} ActivityStep(lines: seq<string>, i: nat, e: ProfileData, level: string)
    requires i < |lines| && lines[i] == "Activity_Level: " + level
    ensures ParseFrom(lines, i, true, e) == ParseFrom(lines, i + 1, true, e.(activityLevel := level))
  {
    KeyLineStep(lines, i, true, e, "Activity_Level", level, e.(activityLevel := level));
  }

  /** The Daily_Calorie_Target line of a block. */
  lemma {:induction false} CaloriesStep(lines: seq<string>, i: nat, e: ProfileData, calories: real)
    requires i < |lines| && lines[i] == "Daily_Calorie_Target: " + FormatInt(TruncToInt(calories))
    ensures ParseFrom(lines, i, true, e)
            == ParseFrom(lines, i + 1, true, e.(caloriesTarget := TruncToInt(calories) as real))
  {
    CaloriesReadBack(e, calories);
    KeyLineStep(lines, i, true, e, "Daily_Calorie_Target", FormatInt(TruncToInt(calories)),
                e.(caloriesTarget := TruncToInt(calories) as real));
  }

  /** The marker line opens the block. */
  lemma {:induction false} MarkerStep(lines: seq<string>, i: nat, inProfile: bool, d: ProfileData)
    requires i < |lines| && lines[i] == "USER_PROFILE"
    ensures ParseFrom(lines, i, inProfile, d) == ParseFrom(lines, i + 1, true, d)
  {
  }

  /** The marker and the Name, Age and Gender lines of a block. */
  lemma {:induction false} ParseBlockHead(d: ProfileData, d0: ProfileData, rest: seq<string>)
    ensures ParseFrom(BlockLines(d) + rest, 0, false, d0)
            == ParseFrom(BlockLines(d) + rest, 4, true, d0.(fullName := d.fullName, age := d.age, gender := d.gender))
  {
    var lines := BlockLines(d) + rest;
    var e1 := d0.(fullName := d.fullName);
    var e2 := e1.(age := d.age);
    assert lines[1] == "Name: " + d.fullName && lines[2] == "Age: " + FormatInt(d.age)
           && lines[3] == "Gender: " + d.gender;
    MarkerStep(lines, 0, false, d0);
    NameStep(lines, 1, d0, d.fullName);
    AgeStep(lines, 2, e1, d.age);
    GenderStep(lines, 3, e2, d.gender);
  }

  /** The Height and Weight lines of a block. */
  lemma {:induction false} ParseBlockBody(d: ProfileData, e: ProfileData, rest: seq<string>)
    ensures ParseFrom(BlockLines(d) + rest, 4, true, e)
            == ParseFrom(BlockLines(d) + rest, 6, true, e.(heightCm := d.heightCm, weightKg := RoundSig6(d.weightKg)))
  {
    var lines := BlockLines(d) + rest;
    HeightStep(lines, 4, e, d.heightCm);
    WeightStep(lines, 5, e.(heightCm := d.heightCm), d.weightKg);
  }

  /** The Activity_Level and Daily_Calorie_Target lines of a block, and its blank line. */
  lemma {:induction false} ParseBlockTail(d: ProfileData, e: ProfileData, rest: seq<string>)
    ensures ParseFrom(BlockLines(d) + rest, 6, true, e)
            == Completed(e.(activityLevel := d.activityLevel, caloriesTarget := TruncToInt(d.caloriesTarget) as real))
  {
    var lines := BlockLines(d) + rest;
    assert lines[6] == "Activity_Level: " + d.activityLevel
           && lines[7] == "Daily_Calorie_Target: " + FormatInt(TruncToInt(d.caloriesTarget));
    ActivityStep(lines, 6, e, d.activityLevel);
    CaloriesStep(lines, 7, e.(activityLevel := d.activityLevel), d.caloriesTarget);
    assert lines[8] == [];
  }

  /** Reading the block lines, whatever follows them, yields ReadBack. */
  lemma {:induction false} ParseBlock(d: ProfileData, d0: ProfileData, rest: seq<string>)
    ensures ParseFrom(BlockLines(d) + rest, 0, false, d0) == Completed(ReadBack(d0, d))
  {
    var e3 := d0.(fullName := d.fullName, age := d.age, gender := d.gender);
    ParseBlockHead(d, d0, rest);
    ParseBlockBody(d, e3, rest);
    ParseBlockTail(d, e3.(heightCm := d.heightCm, weightKg := RoundSig6(d.weightKg)), rest);
  }

  /**
   * Loading a file that starts with the block written for `d` restores every
   * written field, with the weight rounded to six significant digits, and
   * recalculates the targets; the username comes from the file name and the
   * password from the loading profile. Whatever follows the block is ignored.
   */
  lemma {:induction false} LoadAfterWrite(filename: string, d: ProfileData, d0: ProfileData, tail: string)
    requires OneLineFields(d)
    ensures Load(filename, true, ProfileBlock(d) + tail, d0)
            == (Loaded, MacroTargets(d.(username := InferUsername(filename, d0.username),
                                        password := d0.password,
                                        weightKg := RoundSig6(d.weightKg))))
  {
    var named := d0.(username := InferUsername(filename, d0.username));
    ProfileBlockLines(d, tail);
    ParseBlock(d, named, Lines(tail));
    var r := ReadBack(named, d);
    var s := d.(username := named.username, password := named.password, weightKg := RoundSig6(d.weightKg));
    assert r == s.(caloriesTarget := r.caloriesTarget, proteinTarget := r.proteinTarget,
                   carbsTarget := r.carbsTarget, fatTarget := r.fatTarget);
    MacroTargetsIgnoreOldTargets(s, r.caloriesTarget, r.proteinTarget, r.carbsTarget, r.fatTarget);
  }

  // ---------------------------------------------------------------------------
  // updateWeightAndTargets

  /**
   * Writing `text` at the start of a file that holds `buf`: the text replaces
   * the first |text| characters and the rest of the old content stays.
   */
  function OverwriteAt(buf: string, text: string): (r: string)
    ensures |r| == if |buf| > |text| then |buf| else |text|
    ensures r[..|text|] == text && r[|text|..] == if |buf| > |text| then buf[|text|..] else []
  {
    if |buf| <= |text| then text else text + buf[|text|..]
  }

  /** How the typed weight is taken: a cancel word, text stod cannot read, or a number. */
  datatype WeightInput = CancelRequest | NotANumber | NotPositive(w: real) | NewWeight(w: real)

  /**
   * The input checks of updateWeightAndTargets, in order: "b", "back" or
   * "cancel" in any case cancel; then stod must read a number; then it must
   * be positive.
   */
  function ClassifyWeightInput(input: string): (r: WeightInput)
    ensures r.CancelRequest? <==> ToLower(input) in ["b", "back", "cancel"]
    ensures r.NewWeight? ==> r.w > 0.0 && Some(r.w) == ParseReal(input)
    ensures r.NotPositive? ==> r.w <= 0.0 && Some(r.w) == ParseReal(input)
    ensures r.NotANumber? ==> ParseReal(input) == None
  {
    var lower := ToLower(input);
    if lower == "b" || lower == "back" || lower == "cancel" then CancelRequest
    else
      match ParseReal(input)
      case None => NotANumber
      case Some(w) => if w <= 0.0 then NotPositive(w) else NewWeight(w)
  }

  /** How updateWeightAndTargets ended. */
  datatype UpdateOutcome = Cancelled | InvalidInput | InvalidWeight | FileError | Saved

  /** The lower-casing loop of updateWeightAndTargets: a copy of `input`, lower-cased in place. */
  method LowerCopy(input: string) returns (lower: string)
    ensures lower == ToLower(input)
  {
    lower := input;
    var i := 0;
    while i < |lower|
      invariant |lower| == |input| && i <= |lower|
      invariant forall k :: 0 <= k < i ==> lower[k] == LowerChar(input[k])
      invariant forall k :: i <= k < |lower| ==> lower[k] == input[k]
    {
      lower := lower[i := LowerChar(lower[i])];
      i := i + 1;
    }
  }

  /**
   * updateWeightAndTargets with the typed line `input`: cancel words, text
   * that is not a number and weights of zero or less change nothing; a valid
   * weight is stored and the targets recalculated before the file is opened,
   * so the profile is updated even when the file cannot be opened; when it
   * can, the new block overwrites the start of the file.
   */
  method UpdateWeightAndTargets(input: string, file: DataFile, p: UserProfile) returns (outcome: UpdateOutcome)
    modifies p, file
    ensures file.present == old(file.present)
    ensures !ClassifyWeightInput(input).NewWeight? ==>
              p.Value() == old(p.Value()) && file.content == old(file.content)
    ensures ClassifyWeightInput(input).CancelRequest? <==> outcome == Cancelled
    ensures ClassifyWeightInput(input).NotANumber? <==> outcome == InvalidInput
    ensures ClassifyWeightInput(input).NotPositive? <==> outcome == InvalidWeight
    ensures ClassifyWeightInput(input).NewWeight? ==>
              p.Value() == MacroTargets(old(p.Value()).(weightKg := ClassifyWeightInput(input).w))
    ensures ClassifyWeightInput(input).NewWeight? && !file.present ==>
              outcome == FileError && file.content == old(file.content)
    ensures ClassifyWeightInput(input).NewWeight? && file.present ==>
              outcome == Saved && file.content == OverwriteAt(old(file.content), ProfileBlock(p.Value()))
  {
    var lower := LowerCopy(input);
    if lower == "b" || lower == "back" || lower == "cancel" {
      return Cancelled;
    }
    var parsed := ParseReal(input);
    if parsed.None? {
      return InvalidInput;
    }
    var newWeight := parsed.value;
    if newWeight <= 0.0 {
      return InvalidWeight;
    }
    p.weightKg := newWeight;
    CalcMacroTargets(p);
    if !file.present {
      return FileError;
    }
    file.content := OverwriteAt(file.content, ProfileBlock(p.Value()));
    return Saved;
  }

  /** Loading a file whose start was overwritten with a block behaves as loading that block. */
  lemma {:induction false} LoadOverwritten(filename: string, u: ProfileData, buf: string, d0: ProfileData)
    requires OneLineFields(u)
    ensures Load(filename, true, OverwriteAt(buf, ProfileBlock(u)), d0)
            == (Loaded, MacroTargets(u.(username := InferUsername(filename, d0.username),
                                        password := d0.password,
                                        weightKg := RoundSig6(u.weightKg))))
  {
    var text := ProfileBlock(u);
    var r := OverwriteAt(buf, text);
    assert r == text + r[|text|..];
    LoadAfterWrite(filename, u, d0, r[|text|..]);
  }

  /**
   * After a saved weight update, loading the file gives the updated profile
   * back, with the new weight rounded to six significant digits, whatever
   * the file held before.
   */
  lemma {:induction false} LoadAfterWeightUpdate(filename: string, d: ProfileData, w: real, buf: string, d0: ProfileData)
    requires OneLineFields(d)
    ensures Load(filename, true, OverwriteAt(buf, ProfileBlock(MacroTargets(d.(weightKg := w)))), d0).1
            == MacroTargets(d.(username := InferUsername(filename, d0.username),
                               password := d0.password,
                               weightKg := RoundSig6(w)))
  {
    var u := MacroTargets(d.(weightKg := w));
    var s := d.(username := InferUsername(filename, d0.username), password := d0.password,
                weightKg := RoundSig6(w));
    assert u.(username := s.username, password := s.password, weightKg := RoundSig6(u.weightKg))
           == s.(caloriesTarget := u.caloriesTarget, proteinTarget := u.proteinTarget,
                 carbsTarget := u.carbsTarget, fatTarget := u.fatTarget);
    LoadOverwritten(filename, u, buf, d0);
    MacroTargetsIgnoreOldTargets(s, u.caloriesTarget, u.proteinTarget, u.carbsTarget, u.fatTarget);
  }
}
