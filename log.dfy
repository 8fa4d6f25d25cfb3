/** The `/log` command's report summary: best pulls per difficulty and boss,
    the per-difficulty boss text, the top parse, the roster per role, and the
    list of embed fields built from them. Fetching the report is left out;
    every operation here only reads its input. */
module RaidReport {
  import opened Wrappers
  import opened Seqs
  import opened Text
  import opened OrderedMaps

  /** One boss attempt. Percentages are whole numbers here. */
  datatype Fight = Fight(name: string, difficulty: int, kill: bool, fightPercentage: int)

  datatype Character = Character(name: string, rankPercent: int)

  /** One entry of a fight's `roles` object: the role key and its characters. */
  datatype Role = Role(key: string, characters: seq<Character>)

  /** One entry of `rankings.data`. */
  datatype Ranking = Ranking(encounter: string, roles: seq<Role>)

  datatype Report = Report(zone: string, code: string, fights: seq<Fight>, rankings: seq<Ranking>)

  // ---------------------------------------------------------------------
  // Best pulls

  ghost predicate TablesWellFormed(logs: map<int, OrderedMap<int>>)
  {
    forall d :: d in logs ==> WellFormed(logs[d])
  }

  /** One iteration of `getBestPulls`: a kill stores 0; a wipe stores its
      percentage unless a lower value is already stored for that boss. */
  function Record(logs: map<int, OrderedMap<int>>, f: Fight): map<int, OrderedMap<int>>
    requires TablesWellFormed(logs)
  {
    var bestPulls := if f.difficulty in logs then logs[f.difficulty] else Empty();
    var perc :=
      if f.kill then 0
      else if f.name in bestPulls.values && f.fightPercentage > bestPulls.values[f.name]
      then bestPulls.values[f.name]
      else f.fightPercentage;
    logs[f.difficulty := Put(bestPulls, f.name, perc)]
  }

  /** The table `getBestPulls` returns for `fights`. */
  function BestPulls(fights: seq<Fight>): (logs: map<int, OrderedMap<int>>)
    ensures TablesWellFormed(logs)
  {
    if fights == [] then map[]
    else Record(BestPulls(fights[..|fights| - 1]), fights[|fights| - 1])
  }

  /** `getBestPulls`. */
  method GetBestPulls(fights: seq<Fight>) returns (logs: map<int, OrderedMap<int>>)
    ensures logs == BestPulls(fights)
  {
    logs := map[];
    for i := 0 to |fights|
      invariant logs == BestPulls(fights[..i])
    {
      BestPullsStep(fights, i);
      ghost var prev := logs;
      var fight := fights[i];
      if fight.difficulty !in logs {
        logs := logs[fight.difficulty := Empty()];
      }
      var bestPulls := logs[fight.difficulty];
      assert bestPulls == if fight.difficulty in prev then prev[fight.difficulty] else Empty();
      var name := fight.name;
      var perc := 0;
      if !fight.kill {
        perc := fight.fightPercentage;
        if name in bestPulls.values {
          var bestPerc := bestPulls.values[name];
          if perc > bestPerc {
            perc := bestPerc;
          }
        }
      }
      RecordSpec(prev, fight, bestPulls, perc);
      UpdateTwice(prev, fight.difficulty, Empty(), Put(bestPulls, name, perc));
      logs := logs[fight.difficulty := Put(bestPulls, name, perc)];
    }
    TakeAll(fights);
  }

  lemma RecordSpec(prev: map<int, OrderedMap<int>>, f: Fight, bestPulls: OrderedMap<int>, perc: int)
    requires TablesWellFormed(prev)
    requires bestPulls == if f.difficulty in prev then prev[f.difficulty] else Empty()
    requires perc == if f.kill then 0
                     else if f.name in bestPulls.values && f.fightPercentage > bestPulls.values[f.name]
                     then bestPulls.values[f.name] else f.fightPercentage
    ensures Record(prev, f) == prev[f.difficulty := Put(bestPulls, f.name, perc)]
  {
  }

  /** Lets the loop of `GetBestPulls` collapse its two successive updates of one difficulty. */
  lemma UpdateTwice<V>(m: map<int, V>, k: int, a: V, b: V)
    ensures m[k := a][k := b] == m[k := b]
  {
  }

  lemma BestPullsStep(fights: seq<Fight>, i: nat)
    requires i < |fights|
    ensures BestPulls(fights[..i + 1]) == Record(BestPulls(fights[..i]), fights[i])
  {
    assert fights[..i + 1][..i] == fights[..i];
  }

  function Difficulties(fights: seq<Fight>): set<int>
  {
    set f | f in fights :: f.difficulty
  }

  /** The boss names attempted at difficulty `d`, in order, repeats included. */
  function NamesAt(fights: seq<Fight>, d: int): seq<string>
  {
    if fights == [] then []
    else
      var f := fights[|fights| - 1];
      NamesAt(fights[..|fights| - 1], d) + (if f.difficulty == d then [f.name] else [])
  }

  /** What an attempt contributes: 0 for a kill, else its percentage. */
  function Score(f: Fight): int
  {
    if f.kill then 0 else f.fightPercentage
  }

  ghost predicate NonNegative(fights: seq<Fight>)
  {
    forall f :: f in fights ==> f.fightPercentage >= 0
  }

  /** `p` is the least score among the attempts at boss `name` on difficulty `d`. */
  ghost predicate IsBestPull(fights: seq<Fight>, d: int, name: string, p: int)
  {
    && (exists f :: f in fights && f.difficulty == d && f.name == name && Score(f) == p)
    && (forall f :: f in fights && f.difficulty == d && f.name == name ==> p <= Score(f))
  }

  lemma BestPullsUnfold(p: seq<Fight>, f: Fight)
    ensures BestPulls(p + [f]) == Record(BestPulls(p), f)
    ensures NamesAt(p + [f], f.difficulty) == NamesAt(p, f.difficulty) + [f.name]
    ensures forall d :: d != f.difficulty ==> NamesAt(p + [f], d) == NamesAt(p, d)
    ensures Difficulties(p + [f]) == Difficulties(p) + {f.difficulty}
  {
    assert (p + [f])[..|p|] == p;
  }

  lemma {:induction false} NamesAtSpec(fights: seq<Fight>, d: int)
    ensures forall name :: name in NamesAt(fights, d) <==>
              exists f :: f in fights && f.difficulty == d && f.name == name
  {
    if fights != [] {
      var p := fights[..|fights| - 1];
      var f := fights[|fights| - 1];
      assert fights == p + [f];
      NamesAtSpec(p, d);
      BestPullsUnfold(p, f);
    }
  }

  /** The table has a key for exactly the difficulties that occur, and each
      difficulty lists the bosses attempted at it, once each, in first-seen
      order. */
  lemma {:induction false} BestPullsShape(fights: seq<Fight>)
    ensures BestPulls(fights).Keys == Difficulties(fights)
    ensures forall d :: d in BestPulls(fights) ==> BestPulls(fights)[d].keys == Dedup(NamesAt(fights, d))
  {
    if fights != [] {
      var p := fights[..|fights| - 1];
      var f := fights[|fights| - 1];
      BestPullsShape(p);
      DifficultiesLast(fights);
      ShapeStep(p, f);
    }
  }

  lemma DifficultiesLast(fights: seq<Fight>)
    requires fights != []
    ensures Difficulties(fights) == Difficulties(fights[..|fights| - 1]) + {fights[|fights| - 1].difficulty}
  {
    var p := fights[..|fights| - 1];
    assert fights == p + [fights[|fights| - 1]];
  }

  lemma ShapeStep(p: seq<Fight>, f: Fight)
    requires BestPulls(p).Keys == Difficulties(p)
    requires forall d :: d in BestPulls(p) ==> BestPulls(p)[d].keys == Dedup(NamesAt(p, d))
    ensures forall d :: d in Record(BestPulls(p), f) ==>
              Record(BestPulls(p), f)[d].keys == Dedup(NamesAt(p, d) + (if f.difficulty == d then [f.name] else []))
  {
    var before := BestPulls(p);
    var after := Record(before, f);
    forall d | d in after
      ensures after[d].keys == Dedup(NamesAt(p, d) + (if f.difficulty == d then [f.name] else []))
    {
      if d == f.difficulty {
        ShapeStepAt(p, f, before);
      } else {
        assert after[d] == before[d];
        assert NamesAt(p, d) + [] == NamesAt(p, d);
      }
    }
  }

  lemma ShapeStepAt(p: seq<Fight>, f: Fight, before: map<int, OrderedMap<int>>)
    requires before == BestPulls(p)
    requires before.Keys == Difficulties(p)
    requires forall d :: d in before ==> before[d].keys == Dedup(NamesAt(p, d))
    ensures Record(before, f)[f.difficulty].keys == Dedup(NamesAt(p, f.difficulty) + [f.name])
  {
    var d := f.difficulty;
    var names := NamesAt(p, d);
    var bestPulls := if d in before then before[d] else Empty();
    if d !in before {
      NamesAtEmpty(p, d);
    }
    assert bestPulls.keys == Dedup(names);
    DedupElements(names);
    assert f.name in bestPulls.values <==> f.name in Dedup(names);
    DedupAppend(names, f.name);
  }

  lemma {:induction false} NamesAtEmpty(fights: seq<Fight>, d: int)
    requires d !in Difficulties(fights)
    ensures NamesAt(fights, d) == []
  {
    if fights != [] {
      var p := fights[..|fights| - 1];
      var f := fights[|fights| - 1];
      assert fights == p + [f];
      BestPullsUnfold(p, f);
      NamesAtEmpty(p, d);
    }
  }

  /** With non-negative percentages, every stored value is the least score
      over that boss's attempts at that difficulty. */
  lemma {:induction false} BestPullsMinimum(fights: seq<Fight>)
    requires NonNegative(fights)
    ensures forall d, name :: d in BestPulls(fights) && name in BestPulls(fights)[d].values ==>
              IsBestPull(fights, d, name, BestPulls(fights)[d].values[name])
  {
    if fights != [] {
      var p := fights[..|fights| - 1];
      var f := fights[|fights| - 1];
      assert fights == p + [f];
      assert NonNegative(p);
      BestPullsMinimum(p);
      forall d, name | d in BestPulls(p + [f]) && name in BestPulls(p + [f])[d].values
        ensures IsBestPull(p + [f], d, name, BestPulls(p + [f])[d].values[name])
      {
        MinimumStep(p, f, d, name);
      }
    }
  }

  lemma MinimumStep(p: seq<Fight>, f: Fight, d: int, name: string)
    requires NonNegative(p + [f])
    requires forall d, name :: d in BestPulls(p) && name in BestPulls(p)[d].values ==>
               IsBestPull(p, d, name, BestPulls(p)[d].values[name])
    requires d in BestPulls(p + [f]) && name in BestPulls(p + [f])[d].values
    ensures IsBestPull(p + [f], d, name, BestPulls(p + [f])[d].values[name])
  {
    BestPullsUnfold(p, f);
    var before := BestPulls(p);
    if d == f.difficulty && name == f.name {
      RecordAt(before, f);
      if d in before && name in before[d].values {
        BestPullSeen(p, f, before[d].values[name]);
      } else {
        Unattempted(p, d, name);
        BestPullFirst(p, f);
      }
    } else {
      RecordOther(before, f, d, name);
      IsBestPullExtend(p, f, d, name, before[d].values[name]);
    }
  }

  /** A boss with no stored value at a difficulty was never attempted there. */
  lemma Unattempted(p: seq<Fight>, d: int, name: string)
    requires !(d in BestPulls(p) && name in BestPulls(p)[d].values)
    ensures forall g :: g in p ==> g.difficulty != d || g.name != name
  {
    BestPullsShape(p);
    if d in BestPulls(p) {
      BossesAt(p, d);
    } else {
      forall g | g in p ensures g.difficulty != d {
        assert g.difficulty in Difficulties(p);
      }
    }
  }

  lemma IsBestPullExtend(p: seq<Fight>, f: Fight, d: int, name: string, v: int)
    requires IsBestPull(p, d, name, v) && (f.difficulty != d || f.name != name)
    ensures IsBestPull(p + [f], d, name, v)
  {
    var g :| g in p && g.difficulty == d && g.name == name && Score(g) == v;
    assert g in p + [f];
  }

  /** The value `Record` stores for the fight's own boss. */
  lemma RecordAt(logs: map<int, OrderedMap<int>>, f: Fight)
    requires TablesWellFormed(logs)
    ensures f.difficulty in Record(logs, f) && f.name in Record(logs, f)[f.difficulty].values
    ensures Record(logs, f)[f.difficulty].values[f.name] ==
              if f.difficulty in logs && f.name in logs[f.difficulty].values
              then (if f.kill then 0 else if f.fightPercentage > logs[f.difficulty].values[f.name]
                    then logs[f.difficulty].values[f.name] else f.fightPercentage)
              else Score(f)
  {
  }

  /** `Record` leaves every other stored value alone. */
  lemma RecordOther(logs: map<int, OrderedMap<int>>, f: Fight, d: int, name: string)
    requires TablesWellFormed(logs) && (d != f.difficulty || name != f.name)
    requires d in Record(logs, f) && name in Record(logs, f)[d].values
    ensures d in logs && name in logs[d].values
    ensures Record(logs, f)[d].values[name] == logs[d].values[name]
  {
  }

  /** A boss met again: the stored value becomes the lower of the two. */
  lemma BestPullSeen(p: seq<Fight>, f: Fight, stored: int)
    requires NonNegative(p + [f]) && IsBestPull(p, f.difficulty, f.name, stored)
    ensures IsBestPull(p + [f], f.difficulty, f.name,
                       if f.kill then 0 else if f.fightPercentage > stored then stored else f.fightPercentage)
  {
    var fights := p + [f];
    var g :| g in p && g.difficulty == f.difficulty && g.name == f.name && Score(g) == stored;
    assert g in fights && f in fights;
    assert stored >= 0;
  }

  /** A boss met for the first time: the stored value is its own score. */
  lemma BestPullFirst(p: seq<Fight>, f: Fight)
    requires forall g :: g in p ==> g.difficulty != f.difficulty || g.name != f.name
    ensures IsBestPull(p + [f], f.difficulty, f.name, Score(f))
  {
    assert f in p + [f];
  }

  /** A boss killed at a difficulty shows 0 there, whatever the other
      attempts were and in whatever order they came. */
  lemma KilledBossShowsZero(fights: seq<Fight>, f: Fight)
    requires NonNegative(fights) && f in fights && f.kill
    ensures f.difficulty in BestPulls(fights)
    ensures f.name in BestPulls(fights)[f.difficulty].values
    ensures BestPulls(fights)[f.difficulty].values[f.name] == 0
  {
    BestPullsShape(fights);
    NamesAtSpec(fights, f.difficulty);
    DedupElements(NamesAt(fights, f.difficulty));
    BestPullsMinimum(fights);
    var v := BestPulls(fights)[f.difficulty].values[f.name];
    assert IsBestPull(fights, f.difficulty, f.name, v);
    var g :| g in fights && g.difficulty == f.difficulty && g.name == f.name && Score(g) == v;
    assert v >= 0;
  }

  /** With non-negative percentages, reordering the fights changes at most
      the order of the bosses, never which difficulties and bosses appear or
      the values stored. */
  lemma BestPullsOrderIndependent(a: seq<Fight>, b: seq<Fight>)
    requires multiset(a) == multiset(b) && NonNegative(a)
    ensures BestPulls(a).Keys == BestPulls(b).Keys
    ensures forall d :: d in BestPulls(a) ==> BestPulls(a)[d].values == BestPulls(b)[d].values
  {
    forall f ensures f in a <==> f in b {
      assert f in a <==> f in multiset(a);
      assert f in b <==> f in multiset(b);
    }
    BestPullsShape(a);
    BestPullsShape(b);
    assert Difficulties(a) == Difficulties(b);
    forall d | d in BestPulls(a) ensures BestPulls(a)[d].values == BestPulls(b)[d].values {
      SameValuesAt(a, b, d);
    }
  }

  lemma SameValuesAt(a: seq<Fight>, b: seq<Fight>, d: int)
    requires forall f :: f in a <==> f in b
    requires NonNegative(a) && d in BestPulls(a) && d in BestPulls(b)
    ensures BestPulls(a)[d].values == BestPulls(b)[d].values
  {
    BossesAt(a, d);
    BossesAt(b, d);
    BestPullsMinimum(a);
    BestPullsMinimum(b);
    var ta := BestPulls(a)[d].values;
    var tb := BestPulls(b)[d].values;
    assert ta.Keys == tb.Keys;
    forall name | name in ta ensures ta[name] == tb[name] {
      BestPullUnique(a, b, d, name, ta[name], tb[name]);
    }
  }

  /** The bosses stored at a difficulty are those attempted there. */
  lemma BossesAt(fights: seq<Fight>, d: int)
    requires d in BestPulls(fights)
    ensures forall name :: name in BestPulls(fights)[d].values <==>
              exists f :: f in fights && f.difficulty == d && f.name == name
  {
    BestPullsShape(fights);
    NamesAtSpec(fights, d);
    DedupElements(NamesAt(fights, d));
  }

  lemma BestPullUnique(a: seq<Fight>, b: seq<Fight>, d: int, name: string, x: int, y: int)
    requires forall f :: f in a <==> f in b
    requires IsBestPull(a, d, name, x) && IsBestPull(b, d, name, y)
    ensures x == y
  {
    var f :| f in a && f.difficulty == d && f.name == name && Score(f) == x;
    var g :| g in b && g.difficulty == d && g.name == name && Score(g) == y;
    assert y <= Score(f) && x <= Score(g);
  }

  // ---------------------------------------------------------------------
  // Boss sections

  /** One boss's line without its newline: the bare name, with the best
      percentage appended for a boss not killed. */
  function BossLine(name: string, perc: int): string
  {
    if perc > 0 then name + " (" + NatToString(perc) + "%)" else name
  }

  function BossLines(bosses: OrderedMap<int>): (r: seq<string>)
    requires WellFormed(bosses)
    ensures |r| == |bosses.keys|
    ensures forall i :: 0 <= i < |r| ==> r[i] == BossLine(bosses.keys[i], bosses.values[bosses.keys[i]])
  {
    seq(|bosses.keys|, i requires 0 <= i < |bosses.keys| requires WellFormed(bosses) =>
      BossLine(bosses.keys[i], bosses.values[bosses.keys[i]]))
  }

  /** The text of one difficulty's section. */
  function SectionText(bosses: OrderedMap<int>): string
    requires WellFormed(bosses)
  {
    JoinLines(BossLines(bosses))
  }

  /** `getBossSection`: one text per difficulty that occurs. */
  method GetBossSection(fights: seq<Fight>) returns (section: map<int, string>)
    ensures section == BossSections(fights)
  {
    var logs := GetBestPulls(fights);
    section := map[];
    var todo := logs.Keys;
    while todo != {}
      invariant todo <= logs.Keys
      invariant section.Keys == logs.Keys - todo
      invariant forall d :: d in section ==> section[d] == SectionText(logs[d])
      decreases todo
    {
      PickExists(todo);
      var difficulty :| difficulty in todo;
      var text := WriteSection(logs[difficulty]);
      section := section[difficulty := text];
      todo := todo - {difficulty};
    }
    assert section.Keys == logs.Keys;
  }

  /** Each difficulty that occurs, with the text of its section. */
  function BossSections(fights: seq<Fight>): (sections: map<int, string>)
    ensures sections.Keys == Difficulties(fights)
  {
    BestPullsShape(fights);
    var logs := BestPulls(fights);
    map d | d in logs :: SectionText(logs[d])
  }

  /** A non-empty set has an element. Called before `:|` in `GetBossSection`, so that
      the choice is known to have a witness. */
  lemma PickExists(s: set<int>)
    requires s != {}
    ensures exists x :: x in s
  {
    if forall x :: x !in s {
      assert false;
    }
  }

  /** The inner loop of `getBossSection`: one line per boss, each ended by a
      newline. */
  method WriteSection(progress: OrderedMap<int>) returns (text: string)
    requires WellFormed(progress)
    ensures text == SectionText(progress)
  {
    ghost var lines := BossLines(progress);
    text := "";
    for j := 0 to |progress.keys|
      invariant text == JoinLines(lines[..j])
    {
      var boss := progress.keys[j];
      var perc := progress.values[boss];
      var name := boss;
      if perc > 0 {
        name := name + " (" + NatToString(perc) + "%)";
      }
      assert name == lines[j];
      JoinLinesStep(lines, j);
      text := text + name + "\n";
    }
    assert lines[..|progress.keys|] == lines;
  }

  /** A boss line shows a percentage, read back exactly, iff the stored value
      is positive, and contains no newline when the boss name has none. */
  lemma BossLineShape(name: string, perc: int)
    ensures perc > 0 ==> exists digits :: && BossLine(name, perc) == name + " (" + digits + "%)"
                                          && digits != ""
                                          && (forall i :: 0 <= i < |digits| ==> IsDigit(digits[i]))
                                          && DecimalValue(digits) == perc
    ensures perc <= 0 ==> BossLine(name, perc) == name
    ensures '\n' !in name ==> '\n' !in BossLine(name, perc)
  {
    if perc > 0 {
      NatToStringDecimal(perc);
      DigitsHaveNoNewline(NatToString(perc));
      var line := BossLine(name, perc);
      assert line == name + (" (" + NatToString(perc) + "%)");
    }
  }

  lemma DigitsHaveNoNewline(digits: string)
    requires forall i :: 0 <= i < |digits| ==> IsDigit(digits[i])
    ensures '\n' !in digits && '\n' !in " (" + digits + "%)"
  {
    forall i | 0 <= i < |digits| ensures digits[i] != '\n' { assert IsDigit(digits[i]); }
  }

  /** Splitting a section on newlines gives one line per boss, in key order
      (when no boss name holds a newline). */
  lemma SectionLines(bosses: OrderedMap<int>)
    requires WellFormed(bosses)
    requires forall k :: k in bosses.values ==> '\n' !in k
    ensures Split(SectionText(bosses), '\n') == BossLines(bosses) + [""]
  {
    var lines := BossLines(bosses);
    forall i | 0 <= i < |lines| ensures '\n' !in lines[i] {
      BossLineShape(bosses.keys[i], bosses.values[bosses.keys[i]]);
    }
    SplitJoinLines(lines);
  }

  // ---------------------------------------------------------------------
  // Top parse

  /** The characters of a fight, role by role. */
  function Characters(roles: seq<Role>): seq<Character>
  {
    if roles == [] then []
    else Characters(roles[..|roles| - 1]) + roles[|roles| - 1].characters
  }

  function RankOf(best: Option<Character>): int
  {
    if best.Some? then best.value.rankPercent else 0
  }

  /** The running best of one fight, starting from rank 0: a character
      replaces it only with a strictly greater rank. */
  function FightBest(cs: seq<Character>): (best: Option<Character>)
    ensures best.Some? ==> best.value.rankPercent > 0
  {
    if cs == [] then None
    else
      var b := FightBest(cs[..|cs| - 1]);
      var c := cs[|cs| - 1];
      if c.rankPercent > RankOf(b) then Some(c) else b
  }

  /** The text of a parse: rank, name and boss. */
  function ParseText(c: Character, encounter: string): (r: string)
    requires c.rankPercent > 0
    ensures r != ""
  {
    NatToString(c.rankPercent) + "% " + c.name + " (" + encounter + ")"
  }

  /** The best character of one fight, if any has a positive rank. */
  function FightParse(f: Ranking): (best: Option<Character>)
    ensures best.Some? ==> best.value.rankPercent > 0
  {
    FightBest(Characters(f.roles))
  }

  /** The value of `topParse` after the fights `rs`. */
  function TopParse(rs: seq<Ranking>): string
  {
    if rs == [] then ""
    else
      var f := rs[|rs| - 1];
      match FightParse(f)
      case None => TopParse(rs[..|rs| - 1])
      case Some(c) => ParseText(c, f.encounter)
  }

  /** `topParse` while a fight is in progress. */
  function Current(before: string, best: Option<Character>, encounter: string): string
    requires best.Some? ==> best.value.rankPercent > 0
  {
    match best
    case None => before
    case Some(c) => ParseText(c, encounter)
  }

  /** `getTopParse`. */
  method GetTopParse(rankings: seq<Ranking>) returns (topParse: string)
    ensures topParse == TopParse(rankings)
  {
    topParse := "";
    for i := 0 to |rankings|
      invariant topParse == TopParse(rankings[..i])
    {
      TopParseStep(rankings, i);
      ghost var before := topParse;
      var bestRank := 0;
      var fight := rankings[i];
      var roles := fight.roles;
      for ii := 0 to |roles|
        invariant bestRank == RankOf(FightBest(Characters(roles[..ii])))
        invariant topParse == Current(before, FightBest(Characters(roles[..ii])), fight.encounter)
      {
        ghost var done := Characters(roles[..ii]);
        var characters := roles[ii].characters;
        TakeAll(characters);
        assert done + [] == done;
        for iii := 0 to |characters|
          invariant bestRank == RankOf(FightBest(done + characters[..iii]))
          invariant topParse == Current(before, FightBest(done + characters[..iii]), fight.encounter)
        {
          var character := characters[iii];
          var rank := character.rankPercent;
          FightBestStep(done + characters[..iii], character);
          AppendTakeStep(done, characters, iii);
          if rank > bestRank {
            bestRank := rank;
            topParse := NatToString(rank) + "% " + character.name + " (" + fight.encounter + ")";
          }
        }
        TakeAll(characters);
        CharactersStep(roles, ii);
      }
      TakeAll(roles);
    }
    TakeAll(rankings);
  }

  lemma TopParseStep(rs: seq<Ranking>, i: nat)
    requires i < |rs|
    ensures TopParse(rs[..i + 1]) == Current(TopParse(rs[..i]), FightParse(rs[i]), rs[i].encounter)
  {
    assert rs[..i + 1][..i] == rs[..i];
  }

  lemma FightBestStep(cs: seq<Character>, c: Character)
    ensures FightBest(cs + [c]) == if c.rankPercent > RankOf(FightBest(cs)) then Some(c) else FightBest(cs)
  {
    assert (cs + [c])[..|cs|] == cs;
  }

  lemma CharactersStep(roles: seq<Role>, ii: nat)
    requires ii < |roles|
    ensures Characters(roles[..ii + 1]) == Characters(roles[..ii]) + roles[ii].characters
  {
    assert roles[..ii + 1][..ii] == roles[..ii];
  }

  /** Within one fight: none iff no positive rank; otherwise the first
      character with the greatest rank, which is positive. */
  lemma FightBestSpec(cs: seq<Character>)
    ensures FightBest(cs).None? <==> forall i :: 0 <= i < |cs| ==> cs[i].rankPercent <= 0
    ensures FightBest(cs).Some? ==>
              exists i :: (&& 0 <= i < |cs| && cs[i] == FightBest(cs).value
                           && (forall j :: 0 <= j < |cs| ==> cs[j].rankPercent <= cs[i].rankPercent)
                           && (forall j :: 0 <= j < i ==> cs[j].rankPercent < cs[i].rankPercent))
  {
    FightBestNone(cs);
    if FightBest(cs).Some? {
      var i := FightBestIndex(cs);
    }
  }

  lemma {:induction false} FightBestNone(cs: seq<Character>)
    ensures FightBest(cs).None? <==> forall i :: 0 <= i < |cs| ==> cs[i].rankPercent <= 0
  {
    if cs != [] {
      var p := cs[..|cs| - 1];
      FightBestNone(p);
      forall j | 0 <= j < |p| ensures cs[j] == p[j] { }
    }
  }

  /** The position of the best character: the first with the greatest rank. */
  lemma {:induction false} FightBestIndex(cs: seq<Character>) returns (i: nat)
    requires FightBest(cs).Some?
    ensures i < |cs| && cs[i] == FightBest(cs).value
    ensures forall j :: 0 <= j < |cs| ==> cs[j].rankPercent <= cs[i].rankPercent
    ensures forall j :: 0 <= j < i ==> cs[j].rankPercent < cs[i].rankPercent
  {
    var n := |cs| - 1;
    var p := cs[..n];
    var b := FightBest(p);
    forall j | 0 <= j < n ensures cs[j] == p[j] { }
    if cs[n].rankPercent > RankOf(b) {
      i := n;
      if b.Some? {
        var k := FightBestIndex(p);
      } else {
        FightBestNone(p);
      }
    } else {
      i := FightBestIndex(p);
    }
  }

  /** Some character of some fight has a positive rank. */
  ghost predicate AnyPositive(rs: seq<Ranking>)
  {
    exists i, c :: 0 <= i < |rs| && c in Characters(rs[i].roles) && c.rankPercent > 0
  }

  /** The top parse is empty iff no character of any fight has a positive
      rank. */
  lemma {:induction false} TopParseEmpty(rs: seq<Ranking>)
    ensures TopParse(rs) == "" <==> !AnyPositive(rs)
  {
    if rs != [] {
      var p := rs[..|rs| - 1];
      var n := |rs| - 1;
      TopParseEmpty(p);
      var cs := Characters(rs[n].roles);
      FightBestNone(cs);
      if FightParse(rs[n]).None? {
        AnyPositiveLast(rs, p, cs);
      } else {
        var k := FightBestIndex(cs);
        assert cs[k] in Characters(rs[n].roles);
      }
    }
  }

  /** When the last fight has no positive rank, only the earlier ones count. */
  lemma AnyPositiveLast(rs: seq<Ranking>, p: seq<Ranking>, last: seq<Character>)
    requires rs != [] && p == rs[..|rs| - 1] && last == Characters(rs[|rs| - 1].roles)
    requires forall i :: 0 <= i < |last| ==> last[i].rankPercent <= 0
    ensures AnyPositive(rs) <==> AnyPositive(p)
  {
    if AnyPositive(rs) {
      var i, c :| 0 <= i < |rs| && c in Characters(rs[i].roles) && c.rankPercent > 0;
      assert rs[i] == p[i];
    }
    if AnyPositive(p) {
      var i, c :| 0 <= i < |p| && c in Characters(p[i].roles) && c.rankPercent > 0;
      assert rs[i] == p[i];
    }
  }

  /** A non-empty top parse is the best of the last fight that has a positive
      rank: the running best starts again from 0 in every fight. */
  lemma {:induction false} TopParseLastFight(rs: seq<Ranking>)
    ensures TopParse(rs) != "" ==>
              exists i :: (&& 0 <= i < |rs| && FightParse(rs[i]).Some?
                           && TopParse(rs) == ParseText(FightParse(rs[i]).value, rs[i].encounter)
                           && (forall j :: i < j < |rs| ==> FightParse(rs[j]).None?))
  {
    if rs != [] {
      var p := rs[..|rs| - 1];
      if FightParse(rs[|rs| - 1]).None? && TopParse(p) != "" {
        TopParseLastFight(p);
        var i :| && 0 <= i < |p| && FightParse(p[i]).Some?
                 && TopParse(p) == ParseText(FightParse(p[i]).value, p[i].encounter)
                 && (forall j :: i < j < |p| ==> FightParse(p[j]).None?);
        LastFightExtend(rs, p, i);
        assert rs[i] == p[i];
      }
    }
  }

  lemma LastFightExtend(rs: seq<Ranking>, p: seq<Ranking>, i: nat)
    requires rs != [] && p == rs[..|rs| - 1] && i < |p| && FightParse(rs[|rs| - 1]).None?
    requires forall j :: i < j < |p| ==> FightParse(p[j]).None?
    ensures forall j :: i < j < |rs| ==> FightParse(rs[j]).None?
  {
    forall j | i < j < |rs| ensures FightParse(rs[j]).None? {
      if j < |p| { assert rs[j] == p[j]; }
    }
  }

  // ---------------------------------------------------------------------
  // Participants

  /** All role entries of all fights, in order. */
  function AllRoles(rs: seq<Ranking>): seq<Role>
  {
    if rs == [] then [] else AllRoles(rs[..|rs| - 1]) + rs[|rs| - 1].roles
  }

  function RoleKeys(roles: seq<Role>): seq<string>
  {
    if roles == [] then [] else RoleKeys(roles[..|roles| - 1]) + [roles[|roles| - 1].key]
  }

  function Names(cs: seq<Character>): seq<string>
  {
    if cs == [] then [] else Names(cs[..|cs| - 1]) + [cs[|cs| - 1].name]
  }

  /** The names listed under role key `k`, in order, repeats included. */
  function NamesUnder(roles: seq<Role>, k: string): seq<string>
  {
    if roles == [] then []
    else
      var r := roles[|roles| - 1];
      NamesUnder(roles[..|roles| - 1], k) + (if r.key == k then Names(r.characters) else [])
  }

  /** `p` is the roster of `roles`: role keys in first-seen order, each with
      the names seen under it, once each, in first-seen order. */
  ghost predicate IsRoster(p: OrderedMap<seq<string>>, roles: seq<Role>)
  {
    && WellFormed(p)
    && p.keys == Dedup(RoleKeys(roles))
    && (forall k :: k in p.values ==> p.values[k] == Dedup(NamesUnder(roles, k)))
  }

  /** `getParticipants`. */
  method GetParticipants(rankings: seq<Ranking>) returns (participants: OrderedMap<seq<string>>)
    ensures IsRoster(participants, AllRoles(rankings))
  {
    participants := Empty();
    for i := 0 to |rankings|
      invariant IsRoster(participants, AllRoles(rankings[..i]))
    {
      ghost var done := AllRoles(rankings[..i]);
      var fight := rankings[i];
      var roles := fight.roles;
      TakeAll(roles);
      assert done + [] == done;
      for k := 0 to |roles|
        invariant IsRoster(participants, done + roles[..k])
      {
        participants := AddRole(participants, done + roles[..k], roles[k]);
        AppendTakeStep(done, roles, k);
      }
      TakeAll(roles);
      AllRolesStep(rankings, i);
    }
    TakeAll(rankings);
  }

  /** One role entry of `getParticipants`: its key is added if new, then each
      of its character names is added under that key if new there. */
  method AddRole(participants: OrderedMap<seq<string>>, ghost seen: seq<Role>, role: Role)
    returns (result: OrderedMap<seq<string>>)
    requires IsRoster(participants, seen)
    ensures IsRoster(result, seen + [role])
  {
    result := participants;
    RosterAddRole(result, seen, role.key);
    if role.key !in result.values {
      result := Put(result, role.key, []);
    }
    var characters := role.characters;
    TakeAll(characters);
    for ii := 0 to |characters|
      invariant IsRoster(result, seen + [Role(role.key, characters[..ii])])
    {
      var character := characters[ii];
      RosterAddName(result, seen, role.key, characters[..ii], character);
      TakeStep(characters, ii);
      if character.name !in result.values[role.key] {
        result := Put(result, role.key, result.values[role.key] + [character.name]);
      }
    }
    assert Role(role.key, characters[..|characters|]) == role;
  }

  lemma AllRolesStep(rs: seq<Ranking>, i: nat)
    requires i < |rs|
    ensures AllRoles(rs[..i + 1]) == AllRoles(rs[..i]) + rs[i].roles
  {
    assert rs[..i + 1][..i] == rs[..i];
  }

  lemma RoleKeysUnfold(roles: seq<Role>, r: Role)
    ensures RoleKeys(roles + [r]) == RoleKeys(roles) + [r.key]
  {
    assert (roles + [r])[..|roles|] == roles;
  }

  lemma NamesUnderUnfold(roles: seq<Role>, r: Role, k: string)
    ensures NamesUnder(roles + [r], k) == NamesUnder(roles, k) + (if r.key == k then Names(r.characters) else [])
  {
    assert (roles + [r])[..|roles|] == roles;
  }

  lemma NamesAppend(cs: seq<Character>, c: Character)
    ensures Names(cs + [c]) == Names(cs) + [c.name]
  {
    assert (cs + [c])[..|cs|] == cs;
  }

  lemma {:induction false} NamesUnderUnseen(roles: seq<Role>, k: string)
    requires k !in RoleKeys(roles)
    ensures NamesUnder(roles, k) == []
  {
    if roles != [] {
      var p := roles[..|roles| - 1];
      var r := roles[|roles| - 1];
      assert roles == p + [r];
      RoleKeysUnfold(p, r);
      NamesUnderUnfold(p, r, k);
      NamesUnderUnseen(p, k);
    }
  }

  /** Meeting a role entry with no characters yet adds its key if new. */
  lemma RosterAddRole(p: OrderedMap<seq<string>>, roles: seq<Role>, key: string)
    requires IsRoster(p, roles)
    ensures IsRoster(if key in p.values then p else Put(p, key, []), roles + [Role(key, [])])
  {
    var q := if key in p.values then p else Put(p, key, []);
    var after := roles + [Role(key, [])];
    RoleKeysUnfold(roles, Role(key, []));
    DedupAppend(RoleKeys(roles), key);
    DedupElements(RoleKeys(roles));
    assert key in p.values <==> key in Dedup(RoleKeys(roles));
    assert q.keys == Dedup(RoleKeys(after));
    forall k | k in q.values ensures q.values[k] == Dedup(NamesUnder(after, k)) {
      NamesUnderUnfold(roles, Role(key, []), k);
      assert NamesUnder(after, k) == NamesUnder(roles, k);
      if k == key && key !in p.values {
        NamesUnderUnseen(roles, key);
      }
    }
  }

  /** Meeting a character adds its name under its role key if new there. */
  lemma RosterAddName(p: OrderedMap<seq<string>>, roles: seq<Role>, key: string, cs: seq<Character>, c: Character)
    requires IsRoster(p, roles + [Role(key, cs)])
    ensures key in p.values
    ensures IsRoster(if c.name in p.values[key] then p else Put(p, key, p.values[key] + [c.name]),
                     roles + [Role(key, cs + [c])])
  {
    var before := roles + [Role(key, cs)];
    var after := roles + [Role(key, cs + [c])];
    RoleKeysUnfold(roles, Role(key, cs));
    RoleKeysUnfold(roles, Role(key, cs + [c]));
    DedupElements(RoleKeys(before));
    assert key in p.values;
    var q := if c.name in p.values[key] then p else Put(p, key, p.values[key] + [c.name]);
    assert q.keys == Dedup(RoleKeys(after));
    forall k | k in q.values ensures q.values[k] == Dedup(NamesUnder(after, k)) {
      NameValue(p.values, roles, key, cs, c, k);
    }
  }

  lemma NameValue(values: map<string, seq<string>>, roles: seq<Role>, key: string, cs: seq<Character>, c: Character, k: string)
    requires key in values && k in values
    requires values[k] == Dedup(NamesUnder(roles + [Role(key, cs)], k))
    requires values[key] == Dedup(NamesUnder(roles + [Role(key, cs)], key))
    ensures (if c.name in values[key] then values else values[key := values[key] + [c.name]])[k]
              == Dedup(NamesUnder(roles + [Role(key, cs + [c])], k))
  {
    NamesUnderAddName(roles, key, cs, c, k);
    if k == key {
      AddNameAt(values[key], NamesUnder(roles + [Role(key, cs)], k), c.name);
    }
  }

  lemma AddNameAt(listed: seq<string>, u: seq<string>, x: string)
    requires listed == Dedup(u)
    ensures Dedup(u + [x]) == if x in listed then listed else listed + [x]
  {
    DedupAppend(u, x);
  }

  lemma NamesUnderAddName(roles: seq<Role>, key: string, cs: seq<Character>, c: Character, k: string)
    ensures NamesUnder(roles + [Role(key, cs + [c])], k) ==
              NamesUnder(roles + [Role(key, cs)], k) + (if k == key then [c.name] else [])
  {
    NamesUnderUnfold(roles, Role(key, cs), k);
    NamesUnderUnfold(roles, Role(key, cs + [c]), k);
    NamesAppend(cs, c);
    var u, n := NamesUnder(roles, k), Names(cs);
    assert u + (n + [c.name]) == (u + n) + [c.name];
  }

  /** Role entries under other keys never change the list of a key. */
  lemma {:induction false} RolesIndependent(roles: seq<Role>, others: seq<Role>, k: string)
    requires forall r :: r in others ==> r.key != k
    ensures NamesUnder(roles + others, k) == NamesUnder(roles, k)
  {
    if others == [] {
      assert roles + others == roles;
    } else {
      var o := others[..|others| - 1];
      var r := others[|others| - 1];
      assert roles + others == (roles + o) + [r];
      NamesUnderUnfold(roles + o, r, k);
      RolesIndependent(roles, o, k);
    }
  }

  /** The roster names each role key once and lists, under each key, every
      name seen under it exactly once. */
  lemma RosterFacts(p: OrderedMap<seq<string>>, roles: seq<Role>)
    requires IsRoster(p, roles)
    ensures forall k :: k in p.values <==> k in RoleKeys(roles)
    ensures forall k :: k in p.values ==> Distinct(p.values[k])
    ensures forall k, x :: k in p.values ==> (x in p.values[k] <==> x in NamesUnder(roles, k))
  {
    DedupElements(RoleKeys(roles));
    forall k | k in p.values ensures Distinct(p.values[k]) {
      DedupDistinct(NamesUnder(roles, k));
    }
    forall k | k in p.values ensures forall x :: x in p.values[k] <==> x in NamesUnder(roles, k) {
      DedupElements(NamesUnder(roles, k));
    }
  }

  /** `getParticipantSection`: each role's names, each followed by a newline. */
  method GetParticipantSection(rankings: seq<Ranking>) returns (section: OrderedMap<string>)
    ensures section == RosterSection(rankings)
  {
    var participants := GetParticipants(rankings);
    section := WriteRoster(participants);
    ghost var expected := RosterSection(rankings);
    assert section.values.Keys == expected.values.Keys;
  }

  /** Each role key in first-seen order, with the names seen under it, once
      each and in first-seen order, one per line. */
  function RosterSection(rankings: seq<Ranking>): (section: OrderedMap<string>)
    ensures WellFormed(section)
    ensures section.keys == Dedup(RoleKeys(AllRoles(rankings)))
    ensures forall k :: k in section.values ==>
              section.values[k] == JoinLines(Dedup(NamesUnder(AllRoles(rankings), k)))
  {
    var roles := AllRoles(rankings);
    var keys := Dedup(RoleKeys(roles));
    DedupDistinct(RoleKeys(roles));
    OrderedMap(keys, map k | k in keys :: JoinLines(Dedup(NamesUnder(roles, k))))
  }

  /** The loop of `getParticipantSection`, over the roster's keys in order. */
  method WriteRoster(participants: OrderedMap<seq<string>>) returns (section: OrderedMap<string>)
    requires WellFormed(participants)
    ensures WellFormed(section)
    ensures section.keys == participants.keys
    ensures forall k :: k in section.values ==> section.values[k] == JoinLines(participants.values[k])
  {
    section := Empty();
    for r := 0 to |participants.keys|
      invariant WellFormed(section)
      invariant section.keys == participants.keys[..r]
      invariant forall k :: k in section.values ==> section.values[k] == JoinLines(participants.values[k])
    {
      var role := participants.keys[r];
      assert role !in participants.keys[..r];
      var text := WriteNames(participants.values[role]);
      TakeStep(participants.keys, r);
      section := Put(section, role, text);
    }
    TakeAll(participants.keys);
  }

  /** The inner loop of `getParticipantSection`: each name followed by a
      newline. */
  method WriteNames(characters: seq<string>) returns (text: string)
    ensures text == JoinLines(characters)
  {
    text := "";
    for i := 0 to |characters|
      invariant text == JoinLines(characters[..i])
    {
      JoinLinesStep(characters, i);
      text := text + characters[i] + "\n";
    }
    TakeAll(characters);
  }

  // ---------------------------------------------------------------------
  // The report embed

  /** An embed field; `None` is the source's `undefined`. */
  datatype ReportField = ReportField(name: string, value: Option<string>, inline: bool)

  datatype ReportEmbed = ReportEmbed(title: string, url: string, fields: seq<ReportField>)

  /** The participant text of the role key at position `i`, if there is one. */
  function RoleText(rankings: seq<Ranking>, i: nat): Option<string>
  {
    ValueAt(RosterSection(rankings), i)
  }

  /** The embed's field titles. */
  const HeroicTitle := "Heroic"
  const NormalTitle := "Normal"
  const TopParseTitle := "Top parse"
  const DamageTitle := "Damage"
  const HealingTitle := "Healing"
  const TankingTitle := "Tanking"

  /** Where a report is shown, before its code. */
  const ReportsUrl := "https://www.warcraftlogs.com/reports/"

  /** `embedReport`: the difficulty fields, then the top parse, then the role keys at positions 2, 1 and 0
      as Damage, Healing and Tanking. */
  method EmbedReport(report: Report) returns (embed: ReportEmbed)
    ensures embed.title == report.zone
    ensures embed.url == ReportsUrl + report.code + "/"
    ensures embed.fields ==
              DifficultyFields(BossSections(report.fights))
              + [ ReportField(TopParseTitle, Some(TopParse(report.rankings)), false),
                  ReportField(DamageTitle, RoleText(report.rankings, 2), true),
                  ReportField(HealingTitle, RoleText(report.rankings, 1), true),
                  ReportField(TankingTitle, RoleText(report.rankings, 0), true) ]
  {
    var fields := [];
    var bosses := GetBossSection(report.fights);
    if 4 in bosses {
      fields := fields + [ReportField(HeroicTitle, Some(bosses[4]), false)];
    }
    if 3 in bosses {
      fields := fields + [ReportField(NormalTitle, Some(bosses[3]), false)];
    }
    ghost var head := fields;
    assert head == DifficultyFields(bosses);
    var topParse := GetTopParse(report.rankings);
    fields := fields + [ReportField(TopParseTitle, Some(topParse), false)];
    var participants := GetParticipantSection(report.rankings);
    var damage := ReportField(DamageTitle, ValueAt(participants, 2), true);
    var healing := ReportField(HealingTitle, ValueAt(participants, 1), true);
    var tanking := ReportField(TankingTitle, ValueAt(participants, 0), true);
    fields := fields + [damage];
    fields := fields + [healing];
    fields := fields + [tanking];
    AppendFour(head, ReportField(TopParseTitle, Some(topParse), false), damage, healing, tanking);
    embed := ReportEmbed(report.zone, ReportsUrl + report.code + "/", fields);
  }

  /** The Heroic (difficulty 4) and Normal (difficulty 3) fields, each only
      when that difficulty occurs. */
  function DifficultyFields(bosses: map<int, string>): seq<ReportField>
  {
    (if 4 in bosses then [ReportField(HeroicTitle, Some(bosses[4]), false)] else [])
    + (if 3 in bosses then [ReportField(NormalTitle, Some(bosses[3]), false)] else [])
  }
}
