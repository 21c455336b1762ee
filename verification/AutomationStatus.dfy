/** The status words a test framework sends, and the statuses stored for them. */
module AutomationStatus {
  import opened Wrappers
  import opened Text

  const PASSED := "Passed"
  const FAILED := "Failed"
  const SKIPPED := "Skipped"
  const BLOCKED := "Blocked"
  const RETEST := "Retest"
  const UNTESTED := "Untested"

  predicate IsSeparator(c: char) {
    IsSpace(c) || c == '_' || c == '-'
  }

  function Strip(s: string): string {
    if s == "" then "" else (if IsSeparator(s[0]) then "" else [s[0]]) + Strip(s[1..])
  }

  function WireKey(input: string): string {
    Strip(Lower(Trim(input)))
  }

  function WireStatus(key: string): (r: Option<string>)
    ensures r.Some? ==> Stored(r.value)
  {
    if key == "pass" || key == "passed" then Some(PASSED)
    else if key == "fail" || key == "failed" || key == "timedout" then Some(FAILED)
    else if key == "skip" || key == "skipped" then Some(SKIPPED)
    else if key == "blocked" || key == "interrupted" then Some(BLOCKED)
    else if key == "retest" then Some(RETEST)
    else if key == "untested" then Some(UNTESTED)
    else None
  }

  function NormalizeWireStatus(input: string): Option<string> {
    WireStatus(WireKey(input))
  }

  // The statuses the dashboards aggregate on.
  predicate Stored(status: string) {
    || status == PASSED || status == FAILED || status == SKIPPED
    || status == BLOCKED || status == RETEST || status == UNTESTED
  }

  lemma {:induction false} StripKeepsTheRest(s: string)
    ensures forall c :: c in Strip(s) ==> !IsSeparator(c) && c in s
  {
    if s != "" {
      StripKeepsTheRest(s[1..]);
    }
  }

  lemma {:induction false} NothingToStrip(s: string)
    requires forall c :: c in s ==> !IsSeparator(c)
    ensures Strip(s) == s
  {
    if s != "" {
      NothingToStrip(s[1..]);
    }
  }

  lemma LoweredStays(s: string)
    requires forall c :: c in s ==> LowerChar(c) == c
    ensures Lower(s) == s
  {
    forall i | 0 <= i < |s|
      ensures Lower(s)[i] == s[i]
    {
      assert s[i] in s;
    }
  }

  lemma LowerIsLower(s: string)
    ensures forall c :: c in Lower(s) ==> LowerChar(c) == c
  {
    forall c | c in Lower(s)
      ensures LowerChar(c) == c
    {
      var i :| 0 <= i < |s| && Lower(s)[i] == c;
      assert LowerChar(LowerChar(s[i])) == LowerChar(s[i]);
    }
  }

  // Spelling does not matter: the key of a word, which is what the status is looked up by, is
  // its own key, so case, surrounding space and separators anywhere make no difference.
  lemma SpellingIgnored(input: string)
    ensures WireKey(WireKey(input)) == WireKey(input)
  {
    var lowered := Lower(Trim(input));
    var key := Strip(lowered);
    StripKeepsTheRest(lowered);
    LowerIsLower(Trim(input));
    assert key != "" ==> key[0] in key && key[|key| - 1] in key;
    TrimmedStays(key);
    LoweredStays(key);
    NothingToStrip(key);
  }

  lemma {:induction false} StripAppends(a: string, b: string)
    ensures Strip(a + b) == Strip(a) + Strip(b)
  {
    if a == "" {
      assert a + b == b;
    } else {
      assert (a + b)[1..] == a[1..] + b;
      StripAppends(a[1..], b);
    }
  }

  lemma {:induction false} AllStripped(s: string)
    requires forall i :: 0 <= i < |s| ==> IsSeparator(s[i])
    ensures Strip(s) == ""
  {
    if s != "" {
      AllStripped(s[1..]);
    }
  }

  lemma LowerAppends(a: string, b: string)
    ensures Lower(a + b) == Lower(a) + Lower(b)
  {
  }

  // Every text is what Trim leaves of it, between two pieces of space.
  lemma {:induction false} StartTrimmed(s: string) returns (space: string)
    ensures s == space + TrimStart(s) && forall i :: 0 <= i < |space| ==> IsSpace(space[i])
  {
    if s != "" && IsSpace(s[0]) {
      space := StartTrimmed(s[1..]);
      space := [s[0]] + space;
    } else {
      space := "";
    }
  }

  lemma {:induction false} EndTrimmed(s: string) returns (space: string)
    ensures s == TrimEnd(s) + space && forall i :: 0 <= i < |space| ==> IsSpace(space[i])
  {
    if s != "" && IsSpace(s[|s| - 1]) {
      space := EndTrimmed(s[..|s| - 1]);
      space := space + [s[|s| - 1]];
    } else {
      space := "";
    }
  }

  lemma SpaceHasNoKey(space: string)
    requires forall i :: 0 <= i < |space| ==> IsSpace(space[i])
    ensures Strip(Lower(space)) == ""
  {
    AllStripped(Lower(space));
  }

  // Trimming takes nothing away that stripping would not.
  lemma KeyOfUntrimmed(s: string)
    ensures WireKey(s) == Strip(Lower(s))
  {
    var before := StartTrimmed(s);
    var after := EndTrimmed(TrimStart(s));
    SpaceHasNoKey(before);
    SpaceHasNoKey(after);
    LowerAppends(before, TrimStart(s));
    LowerAppends(Trim(s), after);
    StripAppends(Lower(before), Lower(TrimStart(s)));
    StripAppends(Lower(Trim(s)), Lower(after));
  }

  // What the key is: of a plain word, the word; and neither a separator anywhere nor capitals make a
  // difference.
  lemma KeyIs(word: string, a: string, c: char, b: string)
    ensures (forall k :: k in word ==> k != '-' && k != '_' && !IsSpace(k) && LowerChar(k) == k) ==>
              WireKey(word) == word
    ensures c == '-' || c == '_' || IsSpace(c) ==> WireKey(a + [c] + b) == WireKey(a + b)
    ensures WireKey(Lower(a)) == WireKey(a)
  {
    KeyOfUntrimmed(word);
    if forall k :: k in word ==> !IsSeparator(k) && LowerChar(k) == k {
      LoweredStays(word);
      NothingToStrip(word);
    }
    SeparatorIgnored(a, c, b);
    KeyOfUntrimmed(a);
    KeyOfUntrimmed(Lower(a));
    LowerIdempotent(a);
  }

  lemma KeyAppends(a: string, b: string)
    ensures Strip(Lower(a + b)) == Strip(Lower(a)) + Strip(Lower(b))
  {
    LowerAppends(a, b);
    StripAppends(Lower(a), Lower(b));
  }

  lemma SeparatorIgnored(a: string, c: char, b: string)
    ensures IsSeparator(c) ==> WireKey(a + [c] + b) == WireKey(a + b)
  {
    KeyOfUntrimmed(a + [c] + b);
    KeyOfUntrimmed(a + b);
    KeyAppends(a + [c], b);
    KeyAppends(a, [c]);
    KeyAppends(a, b);
    SeparatorHasNoKey(c);
  }

  lemma SeparatorHasNoKey(c: char)
    ensures IsSeparator(c) ==> Strip(Lower([c])) == ""
  {
    if IsSeparator(c) {
      AllStripped(Lower([c]));
    }
  }

  predicate Letters(s: string) {
    forall i :: 0 <= i < |s| ==> 'a' <= s[i] <= 'z'
  }

  lemma LetterStays(c: char)
    requires 'a' <= c <= 'z'
    ensures !IsSeparator(c) && LowerChar(c) == c
  {
  }

  lemma LettersStay(s: string)
    requires Letters(s)
    ensures Strip(Lower(s)) == s
  {
    forall i | 0 <= i < |s|
      ensures !IsSeparator(s[i]) && LowerChar(s[i]) == s[i]
    {
      LetterStays(s[i]);
    }
    LoweredStays(s);
    NothingToStrip(s);
  }

  lemma CapitalLowered(c: char, low: char)
    requires 'A' <= c <= 'Z' && low as int == c as int + 32
    ensures Strip(Lower([c])) == [low]
  {
    assert Lower([c]) == [low];
    LetterStays(low);
    NothingToStrip([low]);
  }

  lemma KeyOfLetters(word: string)
    requires Letters(word)
    ensures WireKey(word) == word
  {
    KeyOfUntrimmed(word);
    LettersStay(word);
  }

  lemma KeyOfCapitalised(first: string, c: char, low: char, rest: string)
    requires Letters(first) && Letters(rest) && 'A' <= c <= 'Z' && low as int == c as int + 32
    ensures WireKey(first + [c] + rest) == first + [low] + rest
  {
    KeyOfUntrimmed(first + [c] + rest);
    KeyAppends(first + [c], rest);
    KeyAppends(first, [c]);
    LettersStay(first);
    LettersStay(rest);
    CapitalLowered(c, low);
  }

  // Every accepted key, and the stored status it stands for.
  const WIRE_STATUS_MAP: map<string, string> := map[
    "pass" := "Passed", "passed" := "Passed",
    "fail" := "Failed", "failed" := "Failed", "timedout" := "Failed",
    "skip" := "Skipped", "skipped" := "Skipped",
    "blocked" := "Blocked", "interrupted" := "Blocked",
    "retest" := "Retest", "untested" := "Untested"]

  lemma WordsStandFor(input: string)
    ensures NormalizeWireStatus(input)
         == if WireKey(input) in WIRE_STATUS_MAP then Some(WIRE_STATUS_MAP[WireKey(input)]) else None
  {
  }

  lemma KeyOfWord(word: string, c: char, low: char, rest: string)
    requires word == [c] + rest && Letters(rest) && 'A' <= c <= 'Z' && low as int == c as int + 32
    ensures WireKey(word) == [low] + rest
  {
    KeyOfCapitalised("", c, low, rest);
    assert "" + [c] + rest == word && "" + [low] + rest == [low] + rest;
  }

  lemma PassedKey(word: string)
    requires word == "Passed"
    ensures WireKey(word) == "passed"
  {
    KeyOfWord(word, 'P', 'p', "assed");
  }

  lemma PassedStored(word: string)
    requires WireKey(word) == "passed"
    ensures NormalizeWireStatus(word) == Some("Passed")
  {
  }

  lemma FailedKey(word: string)
    requires word == "Failed"
    ensures WireKey(word) == "failed"
  {
    KeyOfWord(word, 'F', 'f', "ailed");
  }

  lemma FailedStored(word: string)
    requires WireKey(word) == "failed"
    ensures NormalizeWireStatus(word) == Some("Failed")
  {
  }

  lemma SkippedKey(word: string)
    requires word == "Skipped"
    ensures WireKey(word) == "skipped"
  {
    KeyOfWord(word, 'S', 's', "kipped");
  }

  lemma SkippedStored(word: string)
    requires WireKey(word) == "skipped"
    ensures NormalizeWireStatus(word) == Some("Skipped")
  {
  }

  lemma BlockedKey(word: string)
    requires word == "Blocked"
    ensures WireKey(word) == "blocked"
  {
    KeyOfWord(word, 'B', 'b', "locked");
  }

  lemma BlockedStored(word: string)
    requires WireKey(word) == "blocked"
    ensures NormalizeWireStatus(word) == Some("Blocked")
  {
  }

  lemma RetestKey(word: string)
    requires word == "Retest"
    ensures WireKey(word) == "retest"
  {
    KeyOfWord(word, 'R', 'r', "etest");
  }

  lemma RetestStored(word: string)
    requires WireKey(word) == "retest"
    ensures NormalizeWireStatus(word) == Some("Retest")
  {
  }

  lemma UntestedKey(word: string)
    requires word == "Untested"
    ensures WireKey(word) == "untested"
  {
    KeyOfWord(word, 'U', 'u', "ntested");
  }

  lemma UntestedStored(word: string)
    requires WireKey(word) == "untested"
    ensures NormalizeWireStatus(word) == Some("Untested")
  {
  }

  // A stored status sent as a word is stored as itself.
  lemma StoredIsItself(status: string)
    requires Stored(status)
    ensures NormalizeWireStatus(status) == Some(status)
  {
    if status == "Passed" {
      PassedKey(status);
      PassedStored(status);
    } else if status == "Failed" {
      FailedKey(status);
      FailedStored(status);
    } else if status == "Skipped" {
      SkippedKey(status);
      SkippedStored(status);
    } else if status == "Blocked" {
      BlockedKey(status);
      BlockedStored(status);
    } else if status == "Retest" {
      RetestKey(status);
      RetestStored(status);
    } else {
      UntestedKey(status);
      UntestedStored(status);
    }
  }

  lemma TimedOutKey(word: string)
    requires word == "timedOut"
    ensures WireKey(word) == "timedout"
  {
    KeyOfCapitalised("timed", 'O', 'o', "ut");
    assert word == "timed" + ['O'] + "ut";
    assert "timed" + ['o'] + "ut" == "timedout";
  }

  // The two verdicts that have no status of their own, as the test framework spells them: one did not
  // pass, the other was never run.
  lemma NoVerdictOfTheirOwn(word: string)
    ensures word == "timedOut" ==> NormalizeWireStatus(word) == Some("Failed")
    ensures word == "interrupted" ==> NormalizeWireStatus(word) == Some("Blocked")
  {
    if word == "timedOut" {
      TimedOutKey(word);
    }
    if word == "interrupted" {
      KeyOfLetters(word);
    }
  }
}
