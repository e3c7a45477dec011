# Nutrition tracker profile core, modelled in Dafny

This project models the profile core of a console nutrition tracker written in C++.

- **Records.** The UserProfile, FoodItem and DailyLog records, with their defaults.
- **Targets.** The basal metabolic rate (Mifflin-St Jeor), the activity multiplier found by keyword, and the calorie and macronutrient targets stored back into the profile.
- **Data file.** Each user has a data file. The model covers:
  - the USER_PROFILE block that is written to it;
  - the line-by-line loader, which also takes the username from the file name;
  - the weight update, which rewrites the block in place at the start of the file.
- **Text and input helpers.** Lower-casing, case-insensitive search, trimming, the centring of header lines, the validated number-input loops and the "back" command.

The C++ library behaviour these operations rely on is modelled explicitly:

- `std::string::find`, `find_first_not_of` and `find_last_not_of`.
- `std::getline` over a buffer.
- `std::stoi` and `std::stod`.
- `operator<<` on an `int`, and on a `double` (%g, six significant digits).
- `std::round` and the truncating `static_cast<int>`.

Modules:

- `Wrappers`: `Option`.
- `CppString`: the string searches, and splitting a buffer into lines and joining lines back.
- `CppNumeric`:
  - stoi and stod;
  - the stream formatting of `int` and `double`;
  - rounding and truncation;
  - read-back lemmas: a written `int` reads back exactly, and a written `double` reads back as its six-significant-digit rounding.
- `Utils`: `utils.cpp`.
- `Models`: `models.h`. `UserProfile` is a class, because the profile functions update its fields through a reference. `Value()` snapshots the class's fields as a `ProfileData` value.
- `Targets`: `calcBMR`, `activityMultiplier` and `calcMacroTargets`.
- `ProfileStore`: `writeProfileBlock`, `loadProfileFromFile` and `updateWeightAndTargets`. The data file is a `DataFile` object: whether it can be opened, and its text. The loader and the update are module-level methods that take the `UserProfile` object as a parameter and update it in place, as the free functions of profile.cpp take it by reference. Each is proved equal to a specification function: `Load` for the loader, and `MacroTargets` plus `OverwriteAt` for the update. The properties are proved as lemmas about those functions.

The model follows the code where the comments and messages of `profile.cpp` describe something else:

- `updateWeightAndTargets` only rewrites the USER_PROFILE block at the start of the file. It appends no WEIGHT_UPDATE record. The comment at profile.cpp:180-182 says it appends one, and the message at profile.cpp:234 says weight history was recorded.
- The male formula of `calcBMR` is used for exactly "Male" and "male". The comment at profile.cpp:31 speaks of normalising the gender, but nothing is normalised: "MALE" and " Male" get the female formula.
- The loader applies "Key: value" lines that come before the USER_PROFILE marker too. Only a blank line after the marker stops it; a blank line before the marker is skipped.
- The loader leaves the username unchanged unless the file name contains both "user_" and "_data", with a non-empty gap between them. It then takes the text between the first "user_" and the first "_data", which is not always the intended username: a username that starts with "data" or holds "_data" is not recognised.

## Model

| member | source | states |
|---|---|---|
| Models.UserProfile.constructor | models.h:10-25 | a new profile has empty strings, age and height 0, and weight and all four targets 0.0 |
| Models.FoodItemDefaults | models.h:30-37 | a default food item has no name, zero calories and macronutrients, and a 100 g reference serving |
| Models.DailyLogDefaults | models.h:42-60 | a fresh daily log has no date and no meals, its four totals are 0.0, and its per-entry number fields have no initialiser, so they hold no defined value |
| CppString.Find | profile.cpp:139-140 | `find` returns the first position where the pattern matches, and None exactly when it occurs nowhere |
| CppString.FindFirstNotOf | utils.cpp:67 | `find_first_not_of(' ')`: the first non-space position, with only spaces before it; None when every character is a space |
| CppString.FindLastNotOf | utils.cpp:71 | `find_last_not_of(' ')`: the last non-space position, with only spaces after it; None when every character is a space |
| CppString.Lines | profile.cpp:148 | no line that getline returns holds a "\n" |
| CppString.LinesOfJoin | profile.cpp:148 | reading with getline the text written as lines each followed by "\n" gives back those lines, then the lines of whatever follows, provided no line holds a "\n" |
| CppNumeric.Round | profile.cpp:62-65 | `std::round` is within 0.5 of its argument, and a tie goes away from zero |
| CppNumeric.TruncToInt | profile.cpp:25 | `static_cast<int>` truncates toward zero |
| CppNumeric.FormatInt | profile.cpp:20 | `<<` on an integer writes a single line of text (no "\n"); ParseIntFormatInt and ParseRealFormatInt are its inverses |
| CppNumeric.FormatReal | profile.cpp:23 | `<<` on a double writes a single line of text (no "\n"); ParseRealFormatReal is its inverse up to six significant digits |
| CppNumeric.ParseIntNeedsDigit | profile.cpp:162 | `stoi` accepts only a text that holds a decimal digit, and gives a negative number only when the text holds a '-' |
| CppNumeric.ParseRealNeedsDigit | profile.cpp:164-167 | `stod` accepts only a text that holds a decimal digit; it throws on everything else (also at line 204) |
| CppNumeric.ParseIntFormatInt | profile.cpp:20 | an `int` written by `<<` is read back exactly by `stoi` |
| CppNumeric.ParseRealFormatInt | profile.cpp:22 | an integer written by `<<` is read back exactly by `stod` (Height, and the truncated calorie target) |
| CppNumeric.ParseRealFormatReal | profile.cpp:23 | a `double` written by `<<` (%g, six significant digits) is read back by `stod` as its rounding to six significant digits |
| Utils.ToLower | utils.cpp:52-56 | same length, and every character is mapped by the C-locale `tolower` |
| Utils.LowerChar | utils.cpp:54 | `tolower` leaves no upper-case ASCII letter, changes a character exactly when it is an upper-case ASCII letter, and then shifts it to its lower-case letter |
| Utils.ToLowerIdempotent | utils.cpp:52-56 | lower-casing twice is the same as lower-casing once |
| Utils.ToLowerHasNoUpper | utils.cpp:52-56 | the result has no upper-case ASCII letter |
| Utils.IsSimilar | utils.cpp:60-62 | true exactly when the lower-cased word occurs in the lower-cased text |
| Utils.IsSimilarIgnoresCase | utils.cpp:60-62 | lower-casing either argument first does not change the answer |
| Utils.IsSimilarEmptyWord | utils.cpp:60-62 | the empty word is found in every text |
| Utils.IsSimilarOfInfix | utils.cpp:60-62 | a word is found in every text that contains it |
| Utils.Trim | utils.cpp:66-73 | a string with no character other than ' ' is returned unchanged; otherwise the result is non-empty and starts and ends with a character other than ' ' |
| Utils.TrimSplit | utils.cpp:66-73 | the input is the result with only spaces before it and only spaces after it |
| Utils.TrimKeepsOtherBlanks | utils.cpp:66-73 | only ' ' is removed: a leading tab stays |
| Utils.TrimIdempotent | utils.cpp:66-73 | trimming twice is the same as trimming once |
| Utils.CDiv | utils.cpp:39 | C++ `int` division truncates toward zero |
| Utils.CenterPads | utils.cpp:38-41 | for a text of at most 77 columns, the left and right padding fill the width exactly, and the right padding is the left one or one more; a longer text gets none |
| Utils.CenteredText | utils.cpp:38-42 | the text sits at position (width - length) / 2 with only spaces around it, and the line is 77 columns wide; a longer text is printed unpadded |
| Utils.PaddedChars | utils.cpp:41 | the padded line is the left spaces, then the text, then the right spaces |
| Utils.IntInRangeBounds | utils.cpp:87 | a value is accepted exactly when it is within each bound that is not -1; with both bounds -1, every value is accepted |
| Utils.RealInRangeBounds | utils.cpp:107 | a value is accepted exactly when it is within each bound that is not -1.0; with both bounds -1.0, every value is accepted |
| Utils.FirstAcceptedInt | utils.cpp:78-93 | the index of the first attempt that is a number within range; every earlier attempt was not a number or was out of range |
| Utils.GetValidInt | utils.cpp:78-93 | the loop returns a value within range exactly when some attempt is accepted; the value is the first accepted attempt, with the number of attempts it took |
| Utils.FirstAcceptedReal | utils.cpp:98-113 | the same for `double` attempts, with -1.0 disabling a bound |
| Utils.GetValidDouble | utils.cpp:98-113 | the `double` loop returns exactly the first accepted attempt, which is within range |
| Utils.CheckForBack | utils.cpp:118-130 | true exactly when the input is "b" or "B" and the confirmation is 'y' or 'Y' |
| Targets.CalcBMRGenderGap | profile.cpp:33-39 | all else equal, the male formula gives 166 kcal more than the other formula |
| Targets.CalcBMROtherLabels | profile.cpp:34 | "MALE", " Male" and the empty label get the female formula |
| Targets.CalcBMR | profile.cpp:33-39 | the male formula (10 per kg, 6.25 per cm, -5 per year, +5) gives the result exactly when the label is "Male" or "male"; the female one (-161) exactly otherwise |
| Targets.CalcBMRSlopes | profile.cpp:35-37 | the BMR rises 10 kcal per kg and 6.25 kcal per cm, and falls 5 kcal per year |
| Targets.ActivityMultiplier | profile.cpp:46-53 | the factor is one of 1.2, 1.375, 1.55 and 1.725; "Sedentary" anywhere gives 1.2; the factor is 1.725 exactly when "Very" occurs and none of the earlier keywords does |
| Targets.ActivityMultiplierIsTableLookup | profile.cpp:46-53 | the multiplier is the factor of the first keyword, in table order, that occurs in the level, with 1.2 by default |
| Targets.AbsentFirstChar | profile.cpp:48-51 | a keyword whose first letter is absent from the level does not occur in it |
| Targets.ActivityMultiplierSedentary | profile.cpp:48 | "Sedentary" gives 1.2 |
| Targets.ActivityMultiplierLightlyActive | profile.cpp:49 | "Lightly Active" gives 1.375 |
| Targets.ActivityMultiplierModeratelyActive | profile.cpp:50 | "Moderately Active" gives 1.55 |
| Targets.ActivityMultiplierVeryActive | profile.cpp:51 | "Very Active" gives 1.725 |
| Targets.ActivityMultiplierLowerCase | profile.cpp:51-52 | the search is case-sensitive: "very active" falls through to 1.2 |
| Targets.ActivityMultiplierSedentaryFirst | profile.cpp:48 | the first keyword in table order wins: "Very Sedentary" gives 1.2 |
| Targets.ApplyFactorIsProduct | profile.cpp:61 | multiplying by each of the four activity factors case by case is ordinary multiplication |
| Targets.TdeeIsProduct | profile.cpp:60-61 | the TDEE is the BMR multiplied by the activity multiplier |
| Targets.MacroTargets | profile.cpp:59-66 | the calories are the TDEE rounded; protein is 2 g per kg rounded; carbohydrates are 55 % of the rounded calories at 4 kcal/g, rounded; fat is 25 % at 9 kcal/g, rounded; each is a whole number within 0.5 of its formula, and at an exact half it is the one farther from zero, as std::round does; no other field changes |
| Targets.RoundIsRounded | profile.cpp:62-65 | a rounded target is a whole number within 0.5 of its formula, and at an exact half it is the one farther from zero |
| Targets.TdeeIgnoresTargets | profile.cpp:60-61 | the TDEE depends only on weight, height, age, gender and activity level |
| Targets.MacroTargetsIgnoreOldTargets | profile.cpp:59-66 | whatever targets the profile held before do not affect the new ones |
| Targets.MacroTargetsIdempotent | profile.cpp:59-66 | recalculating targets that are already calculated changes nothing |
| Targets.MacroTargetsSedentaryMale | profile.cpp:59-66 | 70 kg, 175 cm, 25 years, male, sedentary: BMR 1673.75, giving 2009 kcal, 140 g protein, 276 g carbohydrates and 56 g fat |
| Targets.MacroTargetsLightlyActiveFemale | profile.cpp:59-66 | 70 kg, 175 cm, 30 years, female, lightly active: BMR 1482.75, giving 2039 kcal, 140 g protein, 280 g carbohydrates and 57 g fat |
| Targets.CalcMacroTargets | profile.cpp:59-66 | the profile becomes MacroTargets of what it was |
| ProfileStore.BlockLinesOneLine | profile.cpp:17-27 | when name, gender and activity level hold no line break, no written block line does |
| ProfileStore.ProfileBlockLines | profile.cpp:17-27 | under the same condition, the written block, whatever follows it, reads back as its nine lines followed by the lines of the rest |
| ProfileStore.BlockLines | profile.cpp:17-27 | the block is nine lines, "USER_PROFILE" first and the blank line that ends it last |
| ProfileStore.ProfileBlock | profile.cpp:17-27 | when name, gender and activity level hold no line break, reading the written block back with getline gives exactly its nine lines |
| ProfileStore.InferUsername | profile.cpp:139-143 | when "user_" and "_data" both occur with text between the first of each, the result is that non-empty text: exactly the characters between the end of the first "user_" and the first "_data", so "user_" + result + "_data" stands at the first "user_"; otherwise the current username stays |
| ProfileStore.InferUsernameOfDataFile | profile.cpp:139-143 | a file named "user_" + u + "_data" + extension gives back u, when u is not empty, holds no "_data" of its own (underscores are fine) and does not start with "data" |
| ProfileStore.DataMarkerAfterName | profile.cpp:140 | in such a file name the first "_data" is the one right after the username |
| ProfileStore.InferUsernameDataPrefix | profile.cpp:139-143 | a username starting with "data" is not recognised, and the current username stays |
| ProfileStore.ApplyField | profile.cpp:161-167 | the pair throws exactly when the key is Age and stoi rejects the value, or the key is Height, Weight or Daily_Calorie_Target and stod rejects it; a key other than the seven block keys leaves the profile unchanged; no key changes the username or the password |
| ProfileStore.ApplyFieldStores | profile.cpp:161-167 | Name, Gender and Activity_Level store the value as it is; Age stores what stoi reads, Height the truncation of what stod reads, and Weight and Daily_Calorie_Target what stod reads; each key writes only its own field |
| ProfileStore.ApplyLine | profile.cpp:155-167 | a line never changes the username or the password |
| ProfileStore.ParseFrom | profile.cpp:148-168 | reading lines never changes the username or the password, whether it ends normally or by throwing |
| ProfileStore.Load | profile.cpp:129-172 | the outcome is OpenFailed exactly when the file cannot be opened, and then the profile is unchanged; otherwise the username is the one inferred from the file name; the password is never changed |
| ProfileStore.LoadRecalculates | profile.cpp:169-171 | after a completed load the targets are recalculated: the loaded profile is its own MacroTargets, so any targets the file held are replaced by the ones its body fields give |
| ProfileStore.StoreField | profile.cpp:161-167 | the key dispatch throws exactly when stoi or stod rejects the value, and then leaves the profile unchanged; otherwise it stores what ApplyField gives |
| ProfileStore.StoreLine | profile.cpp:155-167 | one line is split at the first ": " and stored as ApplyLine says, and skipped when it has no ": " |
| ProfileStore.LoadProfileFromFile | profile.cpp:129-172 | the outcome and the new profile are exactly what Load gives for the file and the old profile |
| ProfileStore.ApplyKeyLine | profile.cpp:155-159 | a line "key: value" whose key holds no ": " of its own is split into exactly that key and that value |
| ProfileStore.ColonFreeKey | profile.cpp:155-159 | a key without ':' (every key of the block) holds no ": " of its own |
| ProfileStore.KeyLineStep | profile.cpp:148-167 | a key line whose key holds no ':' and whose value converts sets its field, and the reading continues with the next line |
| ProfileStore.UnknownKeyIgnored | profile.cpp:161-167 | a line whose key is none of the seven block keys (and holds no ": " of its own) changes nothing |
| ProfileStore.LineWithoutSeparatorSkipped | profile.cpp:155-156 | a non-blank line without ": " is skipped, inside the block too |
| ProfileStore.ParseIntRejectsWord | profile.cpp:162 | stoi throws on "unknown" |
| ProfileStore.BadAgeLineThrows | profile.cpp:162 | an Age line that stoi rejects ends the reading by throwing, with the profile as it was before that line |
| ProfileStore.NonNumericAgeLines | profile.cpp:148 | the file written as the marker and "Age: unknown" reads back as those two lines |
| ProfileStore.NonNumericAgeParse | profile.cpp:148-168 | reading those two lines throws at the Age line |
| ProfileStore.NonNumericAgeThrows | profile.cpp:129-172 | loading such a file ends by throwing: the username is inferred, and the targets are not recalculated |
| ProfileStore.BlankBeforeMarkerSkipped | profile.cpp:148-153 | a blank line before the marker does not stop the reading |
| ProfileStore.LinesBeforeMarkerApplied | profile.cpp:148-168 | a Name line before the marker is applied, and the blank line after the marker ends the reading before a later Name line |
| ProfileStore.ApplyFieldLaterWins | profile.cpp:161-167 | storing a key twice, when both values convert, leaves what storing only the second value does |
| ProfileStore.DuplicateKeyLines | profile.cpp:148-167 | two consecutive lines with the same key, both converting, are read as if only the second were there |
| ProfileStore.LaterDuplicateWins | profile.cpp:161-167 | example: of two Gender lines after the marker, the second one's value is the gender read |
| ProfileStore.AgeReadBack | profile.cpp:162 | the age written at line 20 is read back exactly |
| ProfileStore.HeightReadBack | profile.cpp:164 | the height written at line 22 is read back exactly |
| ProfileStore.WeightReadBack | profile.cpp:165 | the weight written at line 23 is read back rounded to six significant digits |
| ProfileStore.CaloriesReadBack | profile.cpp:167 | the calorie target written truncated at line 25 is read back as the truncated value |
| ProfileStore.NameStep | profile.cpp:161 | the Name line of a block sets the full name |
| ProfileStore.AgeStep | profile.cpp:162 | the Age line of a block sets the age written |
| ProfileStore.GenderStep | profile.cpp:163 | the Gender line of a block sets the gender |
| ProfileStore.HeightStep | profile.cpp:164 | the Height line of a block sets the height written |
| ProfileStore.WeightStep | profile.cpp:165 | the Weight line of a block sets the weight, rounded to six significant digits |
| ProfileStore.ActivityStep | profile.cpp:166 | the Activity_Level line of a block sets the activity level |
| ProfileStore.CaloriesStep | profile.cpp:167 | the Daily_Calorie_Target line of a block sets the truncated calorie target |
| ProfileStore.ParseBlockHead | profile.cpp:148-163 | the marker, Name, Age and Gender lines of a block set those three fields |
| ProfileStore.ParseBlockBody | profile.cpp:164-165 | the Height and Weight lines of a block set height and weight |
| ProfileStore.ParseBlockTail | profile.cpp:153-167 | the Activity_Level and calorie lines set their fields, and the blank line ends the reading |
| ProfileStore.ParseBlock | profile.cpp:148-168 | reading a written block, whatever follows it, completes with every written field restored; the weight is rounded to six significant digits and the calorie target truncated |
| ProfileStore.LoadAfterWrite | profile.cpp:129-172 | loading a file that starts with the block written for a profile restores every written field. The weight comes back rounded to six significant digits. The username comes from the file name and the password from the loading profile. The targets are recalculated. Whatever follows the block is ignored |
| ProfileStore.OverwriteAt | profile.cpp:230-231 | writing at position 0 replaces the first characters with the block and keeps the rest of the old content |
| ProfileStore.ClassifyWeightInput | profile.cpp:193-215 | in order: "b", "back" or "cancel" in any case cancel; then text stod rejects is invalid; then a weight of zero or less is invalid; otherwise the weight is stod's positive value |
| ProfileStore.LowerCopy | profile.cpp:193-194 | the in-place lower-casing loop gives ToLower of the input |
| ProfileStore.UpdateWeightAndTargets | profile.cpp:185-236 | each rejection leaves profile and file unchanged, with its own outcome. A valid weight is stored and the targets recalculated before the file is opened, so this happens even when the file cannot be opened. When the file can be opened, the new block overwrites its start |
| ProfileStore.LoadOverwritten | profile.cpp:230-231 | loading a file whose start was overwritten with a block gives what loading that block gives |
| ProfileStore.LoadAfterWeightUpdate | profile.cpp:185-236 | after a saved update, loading the file gives the updated profile back, with the new weight rounded to six significant digits, whatever the file held before |

## Left out

- Floating point: `double` is modelled as an exact real. The products and sums of `calcBMR`, `calcMacroTargets` and the weight update are exact, and IEEE rounding and overflow are not modelled. Rounding to six significant digits in `<<` rounds the exact value half to even.
- `stod` reads only the decimal form with an optional exponent. It does not read the hexadecimal, infinity or NaN forms, and it never throws out_of_range, so NaN never reaches the `newWeight <= 0` test.
- `int` overflow:
  - `stoi`'s out_of_range is modelled.
  - The height is unbounded: storing a `stod` result outside the `int` range (undefined behaviour) is not modelled.
  - `static_cast<int>` of a calorie target outside the `int` range is not modelled either.
- Console input and output are modelled as follows:
  - `cin >> value` in `getValidInt` and `getValidDouble` becomes a sequence of attempts, each either a number or a failed read.
  - When every attempt is rejected, the model returns None; the source would wait for more input, or loop forever at end of input.
  - Prompts, messages and `pauseConsole` are left out.
  - `checkForBack` takes the confirmation character as a parameter.
  - `updateWeightAndTargets` takes the typed line as a parameter.
- A file name designates a file. The model gives that file as the `DataFile` parameter, with a flag saying whether it can be opened. The loader still takes the name's text, because it infers the username from it. The update uses the name only to open the file (profile.cpp:223) and in its error message, so it gets no name.
- `printHeader`: only the centring of a line (`printCentered`) is modelled. Widths are counted in characters; the box-drawing border characters and the screen clearing are left out.
- `displayNutritionTargets`, `displayProfile` and `createUserDataFile` only print or write the block; they are left out. `auth.h` (login and registration) is not part of this model.
- Line endings: the program includes `windows.h` (utils.cpp:3) and clears the console with `cls` (utils.cpp:14), so it is built for Windows. There, the text-mode streams of profile.cpp (for example the `fstream` at profile.cpp:223) write each "\n" as "\r\n" and read "\r\n" back as "\n". The model treats streams as byte-transparent, as they are on POSIX systems: what is written is what is read, and a "\r" in the file stays part of its line. On Windows the loader would see the same lines, so `LoadAfterWrite` and `LoadAfterWeightUpdate` are unaffected. The byte layout on disk is another matter: see `OverwriteAt` below.
- OverwriteAt: measures the written block in characters, with one byte per "\n". On Windows the text-mode stream writes each of the block's nine "\n" as "\r\n", so the block takes |block| + 9 bytes on disk, and the old content is kept only from that offset on. The model does not capture this. What the loader reads back is the same either way, because it stops at the block's blank line.
- The indeterminate scratch fields of a fresh DailyLog (no initialiser in the record) are modelled as None.
- Utils.CenteredText: the width of a line is counted in characters, whereas the source counts bytes of its UTF-8 text.
- Strings are sequences of characters, whereas the source's `std::string` holds bytes. This matters in three places:
  - for `CenteredText`, as above;
  - for `OverwriteAt`, where the kept tail of the old file starts at a byte offset when the overwritten region holds non-ASCII text;
  - for `ToLower`, where `tolower` is applied to each byte of a multi-byte character rather than to the character.
