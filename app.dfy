/** The top-level page script: session initialisation, the reset button and
    the achievement check. */
module App {
  import opened Wrappers
  import opened Session

  /** The keys the page script fills in before anything else runs. */
  const AppKeys: set<Key> := {Score, Level, GameMode, CurrentFunction, Achievements}

  /** Session initialisation: each key gets its default only when it is missing. */
  method InitialiseSession(s: SessionState)
    modifies s`present, s`score, s`level, s`gameMode, s`currentFunction, s`achievements
    ensures s.present == old(s.present) + AppKeys
    ensures s.score == (if Score in old(s.present) then old(s.score) else 0)
    ensures s.level == (if Level in old(s.present) then old(s.level) else 1)
    ensures s.gameMode == (if GameMode in old(s.present) then old(s.gameMode) else "Function Input")
    ensures s.currentFunction == (if CurrentFunction in old(s.present) then old(s.currentFunction) else None)
    ensures s.achievements == (if Achievements in old(s.present) then old(s.achievements) else [])
  {
    if Score !in s.present {
      s.score := 0;
    }
    if Level !in s.present {
      s.level := 1;
    }
    if GameMode !in s.present {
      s.gameMode := "Function Input";
    }
    if CurrentFunction !in s.present {
      s.currentFunction := None;
    }
    if Achievements !in s.present {
      s.achievements := [];
    }
    s.present := s.present + AppKeys;
  }

  /** The reset button: score, level, current function and achievements back to
      their starting values; the game mode is kept. */
  method ResetGame(s: SessionState)
    modifies s`present, s`score, s`level, s`currentFunction, s`achievements
    ensures s.score == 0 && s.level == 1 && s.currentFunction == None && s.achievements == []
    ensures s.present == old(s.present) + {Score, Level, CurrentFunction, Achievements}
  {
    s.score := 0;
    s.level := 1;
    s.currentFunction := None;
    s.achievements := [];
    s.present := s.present + {Score, Level, CurrentFunction, Achievements};
  }

  const FirstSteps: string := "First Steps"
  const AsymptoteAce: string := "Asymptote Ace"
  const LevelMaster: string := "Level Master"
  const FunctionExpert: string := "Function Expert"

  /** The badges in the order the check considers them. */
  const Badges: seq<string> := [FirstSteps, AsymptoteAce, LevelMaster, FunctionExpert]

  /** The threshold of each badge. */
  predicate Qualifies(badge: string, score: int, level: int) {
    || (badge == FirstSteps && score >= 10)
    || (badge == AsymptoteAce && score >= 50)
    || (badge == LevelMaster && level >= 5)
    || (badge == FunctionExpert && score >= 100)
  }

  /** The `new_achievements` list: each badge whose threshold holds and that is
      not held yet, in the fixed order. */
  function NewAchievements(score: int, level: int, have: seq<string>): (r: seq<string>)
    ensures |r| <= |Badges|
    ensures score < 10 && level < 5 ==> r == []
  {
    (if score >= 10 && FirstSteps !in have then [FirstSteps] else [])
    + (if score >= 50 && AsymptoteAce !in have then [AsymptoteAce] else [])
    + (if level >= 5 && LevelMaster !in have then [LevelMaster] else [])
    + (if score >= 100 && FunctionExpert !in have then [FunctionExpert] else [])
  }

  predicate NoDuplicates(s: seq<string>) {
    forall i, j :: 0 <= i < j < |s| ==> s[i] != s[j]
  }

  /** The badges of `badges`, in order, that qualify and are not held: a
      reference definition of the new list. */
  function Unlockable(badges: seq<string>, score: int, level: int, have: seq<string>): seq<string>
    decreases |badges|
  {
    if |badges| == 0 then []
    else (if Qualifies(badges[0], score, level) && badges[0] !in have then [badges[0]] else [])
         + Unlockable(badges[1..], score, level, have)
  }

  /** Every unlockable badge comes from the list, qualifies and is not held. */
  lemma {:induction false} UnlockableFresh(badges: seq<string>, score: int, level: int, have: seq<string>)
    ensures forall b :: b in Unlockable(badges, score, level, have) ==>
              b in badges && b !in have && Qualifies(b, score, level)
    decreases |badges|
  {
    if |badges| > 0 {
      UnlockableFresh(badges[1..], score, level, have);
    }
  }

  /** A list of distinct badges unlocks each of them at most once. */
  lemma {:induction false} UnlockableNoDuplicates(badges: seq<string>, score: int, level: int, have: seq<string>)
    requires NoDuplicates(badges)
    ensures NoDuplicates(Unlockable(badges, score, level, have))
    decreases |badges|
  {
    if |badges| > 0 {
      var tail := badges[1..];
      assert NoDuplicates(tail) by {
        forall i, j | 0 <= i < j < |tail| ensures tail[i] != tail[j] {
          assert tail[i] == badges[i + 1] && tail[j] == badges[j + 1];
        }
      }
      assert badges[0] !in tail by {
        forall k | 0 <= k < |tail| ensures tail[k] != badges[0] {
          assert tail[k] == badges[k + 1];
        }
      }
      UnlockableNoDuplicates(tail, score, level, have);
      UnlockableFresh(tail, score, level, have);
    }
  }

  lemma BadgesHaveNoDuplicates()
    ensures NoDuplicates(Badges)
  {
    assert FirstSteps[0] != AsymptoteAce[0] && FirstSteps[0] != LevelMaster[0];
    assert FirstSteps[1] != FunctionExpert[1];
    assert AsymptoteAce[0] != LevelMaster[0] && AsymptoteAce[0] != FunctionExpert[0];
    assert LevelMaster[0] != FunctionExpert[0];
  }

  /** The four checks of the page build exactly the unlockable list of `Badges`. */
  lemma NewAchievementsAreUnlockable(score: int, level: int, have: seq<string>)
    ensures NewAchievements(score, level, have) == Unlockable(Badges, score, level, have)
  {
    var rest1, rest2, rest3 := Badges[1..], Badges[2..], Badges[3..];
    assert rest1 == [AsymptoteAce, LevelMaster, FunctionExpert];
    assert rest1[1..] == rest2 == [LevelMaster, FunctionExpert];
    assert rest2[1..] == rest3 == [FunctionExpert];
    assert rest3[1..] == [];
    assert Unlockable(rest3, score, level, have) ==
           (if score >= 100 && FunctionExpert !in have then [FunctionExpert] else []);
    assert Unlockable(rest2, score, level, have) ==
           (if level >= 5 && LevelMaster !in have then [LevelMaster] else [])
           + Unlockable(rest3, score, level, have);
    assert Unlockable(rest1, score, level, have) ==
           (if score >= 50 && AsymptoteAce !in have then [AsymptoteAce] else [])
           + Unlockable(rest2, score, level, have);
  }

  /** The new entries are the qualifying badges not yet held, in the fixed order,
      and none of them is held already or repeated. */
  lemma NewAchievementsInBadgeOrder(score: int, level: int, have: seq<string>)
    ensures NewAchievements(score, level, have) == Unlockable(Badges, score, level, have)
    ensures NoDuplicates(NewAchievements(score, level, have))
    ensures forall b :: b in NewAchievements(score, level, have) ==> b !in have
  {
    NewAchievementsAreUnlockable(score, level, have);
    BadgesHaveNoDuplicates();
    UnlockableNoDuplicates(Badges, score, level, have);
    UnlockableFresh(Badges, score, level, have);
  }

  /** The achievement list after the check. */
  function AfterCheck(score: int, level: int, have: seq<string>): seq<string> {
    have + NewAchievements(score, level, have)
  }

  /** The check never introduces a duplicate. */
  lemma CheckKeepsNoDuplicates(score: int, level: int, have: seq<string>)
    requires NoDuplicates(have)
    ensures NoDuplicates(AfterCheck(score, level, have))
  {
    var added := NewAchievements(score, level, have);
    NewAchievementsInBadgeOrder(score, level, have);
    var r := AfterCheck(score, level, have);
    forall i, j | 0 <= i < j < |r| ensures r[i] != r[j] {
      if j >= |have| && i < |have| {
        assert r[j] in added;
      } else if i >= |have| {
        assert r[i] == added[i - |have|] && r[j] == added[j - |have|];
      }
    }
  }

  /** After the check a badge is held iff it was held before or its threshold holds. */
  lemma CheckGrantsExactlyQualified(score: int, level: int, have: seq<string>, b: string)
    requires b in Badges
    ensures b in AfterCheck(score, level, have) <==> b in have || Qualifies(b, score, level)
  {
  }

  /** Checking twice with the same score and level is the same as checking once. */
  lemma CheckIsIdempotent(score: int, level: int, have: seq<string>)
    ensures AfterCheck(score, level, AfterCheck(score, level, have)) == AfterCheck(score, level, have)
  {
    var once := AfterCheck(score, level, have);
    forall b | b in Badges ensures Qualifies(b, score, level) ==> b in once {
      CheckGrantsExactlyQualified(score, level, have, b);
    }
    assert NewAchievements(score, level, once) == [];
  }

  /** `check_achievements`: appends each new badge, in order, to the list in
      place; the returned list is what the page announces. */
  method CheckAchievements(s: SessionState) returns (unlocked: seq<string>)
    requires AppKeys <= s.present
    modifies s`achievements
    ensures unlocked == NewAchievements(s.score, s.level, old(s.achievements))
    ensures s.achievements == AfterCheck(s.score, s.level, old(s.achievements))
  {
    var newAchievements: seq<string> := [];
    if s.score >= 10 && FirstSteps !in s.achievements {
      newAchievements := newAchievements + [FirstSteps];
    }
    if s.score >= 50 && AsymptoteAce !in s.achievements {
      newAchievements := newAchievements + [AsymptoteAce];
    }
    if s.level >= 5 && LevelMaster !in s.achievements {
      newAchievements := newAchievements + [LevelMaster];
    }
    if s.score >= 100 && FunctionExpert !in s.achievements {
      newAchievements := newAchievements + [FunctionExpert];
    }
    assert newAchievements == NewAchievements(s.score, s.level, s.achievements);
    NewAchievementsInBadgeOrder(s.score, s.level, s.achievements);
    unlocked := AppendMissing(s, newAchievements);
  }

  /** The loop of `check_achievements`: each entry not yet in the list is
      appended; entries that are new and distinct are all appended. */
  method AppendMissing(s: SessionState, entries: seq<string>) returns (appended: seq<string>)
    requires NoDuplicates(entries)
    requires forall b :: b in entries ==> b !in s.achievements
    modifies s`achievements
    ensures appended == entries
    ensures s.achievements == old(s.achievements) + entries
  {
    appended := [];
    var i := 0;
    while i < |entries|
      invariant 0 <= i <= |entries|
      invariant appended == entries[..i]
      invariant s.achievements == old(s.achievements) + appended
    {
      var entry := entries[i];
      assert entry !in old(s.achievements);
      assert forall j :: 0 <= j < i ==> appended[j] != entry;
      if entry !in s.achievements {
        s.achievements := s.achievements + [entry];
        appended := appended + [entry];
      }
      assert entries[..i + 1] == entries[..i] + [entry];
      i := i + 1;
    }
    assert entries[..i] == entries;
  }
}
