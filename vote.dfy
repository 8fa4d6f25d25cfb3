/** The `/vote` command: polls keyed by title, created from a comma-separated
    option string, updated by one ballot per button press, and rendered as
    one embed field per option. The JSON store is the map `votes` of a
    `VoteStore`; loading and saving it are left out. */
module VoteEngine {
  import opened Wrappers
  import opened Seqs
  import opened Text
  import opened OrderedMaps

  /** `maxOptions`: how many non-empty option pieces a vote takes. */
  const MaxOptions: nat := 5

  /** What an option holds: a counter in an anonymous vote, a map from user
      id to display name in a named vote. */
  datatype Tally = Count(n: nat) | Ballots(names: OrderedMap<string>)

  /** One open vote. `voters` records who has voted in an anonymous vote. */
  datatype Vote = Vote(
    title: string,
    description: Option<string>,
    anonymity: bool,
    options: OrderedMap<Tally>,
    voters: seq<string>)

  /** The tally a fresh option starts with: `0` or `{}`. */
  function InitialTally(anonymity: bool): Tally
  {
    if anonymity then Count(0) else Ballots(Empty())
  }

  ghost predicate TallyFits(anonymity: bool, t: Tally)
  {
    if anonymity then t.Count? else t.Ballots? && WellFormed(t.names)
  }

  /** The sum of the counters stored under `keys`. */
  function CountSum(keys: seq<string>, values: map<string, Tally>): nat
  {
    if keys == [] then 0
    else
      var k := keys[|keys| - 1];
      CountSum(keys[..|keys| - 1], values) + (if k in values && values[k].Count? then values[k].n else 0)
  }

  /** What every stored vote satisfies: at most `MaxOptions` options, each of
      the kind the anonymity flag selects; in an anonymous vote each voter is
      recorded once and the counters add up to the number of voters; a
      named vote never records voters. */
  ghost predicate ValidVote(v: Vote)
  {
    && WellFormed(v.options)
    && |v.options.keys| <= MaxOptions
    && (forall k :: k in v.options.values ==> TallyFits(v.anonymity, v.options.values[k]))
    && Distinct(v.voters)
    && (v.anonymity ==> CountSum(v.options.keys, v.options.values) == |v.voters|)
    && (!v.anonymity ==> v.voters == [])
  }

  // ---------------------------------------------------------------------
  // Parsing the option string

  /** The trimmed pieces that are not empty, in order, duplicates included. */
  function Labels(pieces: seq<string>): seq<string>
  {
    if pieces == [] then []
    else
      var t := Trim(pieces[|pieces| - 1]);
      Labels(pieces[..|pieces| - 1]) + (if t == "" then [] else [t])
  }

  function Take<T>(s: seq<T>, n: nat): (r: seq<T>)
  {
    if |s| <= n then s else s[..n]
  }

  /** The labels `createVote` assigns, in order: the first `MaxOptions`
      non-empty pieces, duplicates included. */
  function KeptLabels(optionString: string): seq<string>
  {
    Take(Labels(Split(optionString, ',')), MaxOptions)
  }

  /** The option table after `options[label] = t` for each label in turn. */
  function Assign(labels: seq<string>, t: Tally): (r: OrderedMap<Tally>)
    ensures WellFormed(r)
  {
    if labels == [] then Empty()
    else Put(Assign(labels[..|labels| - 1], t), labels[|labels| - 1], t)
  }

  /** The option table a new vote starts with. */
  function InitialOptions(optionString: string, anonymity: bool): OrderedMap<Tally>
  {
    Assign(KeptLabels(optionString), InitialTally(anonymity))
  }

  /** Assigning labels in turn keys the table by the labels, duplicates
      collapsed, in first-seen order, each holding the assigned tally. */
  lemma {:induction false} AssignSpec(labels: seq<string>, t: Tally)
    ensures Assign(labels, t).keys == Dedup(labels)
    ensures forall k :: k in Assign(labels, t).values ==> Assign(labels, t).values[k] == t
  {
    if labels != [] {
      AssignSpec(labels[..|labels| - 1], t);
    }
  }

  /** Every label is a non-empty trimmed piece, and every piece that is not
      blank gives a label. */
  lemma LabelsSpec(pieces: seq<string>)
    ensures forall l :: l in Labels(pieces) ==> l != "" && exists i :: 0 <= i < |pieces| && Trim(pieces[i]) == l
    ensures forall i :: 0 <= i < |pieces| && Trim(pieces[i]) != "" ==> Trim(pieces[i]) in Labels(pieces)
    ensures |Labels(pieces)| <= |pieces|
  {
    LabelsSound(pieces);
    LabelsComplete(pieces);
    LabelsLength(pieces);
  }

  lemma {:induction false} LabelsSound(pieces: seq<string>)
    ensures forall l :: l in Labels(pieces) ==> l != "" && exists i :: 0 <= i < |pieces| && Trim(pieces[i]) == l
  {
    if pieces != [] {
      var p := pieces[..|pieces| - 1];
      var t := Trim(pieces[|pieces| - 1]);
      LabelsSound(p);
      assert Labels(pieces) == Labels(p) + (if t == "" then [] else [t]);
      forall l | l in Labels(pieces)
        ensures l != "" && exists i :: 0 <= i < |pieces| && Trim(pieces[i]) == l
      {
        if l in Labels(p) {
          var i :| 0 <= i < |p| && Trim(p[i]) == l;
          assert pieces[i] == p[i];
        } else {
          assert Trim(pieces[|pieces| - 1]) == l;
        }
      }
    }
  }

  lemma {:induction false} LabelsComplete(pieces: seq<string>)
    ensures forall i :: 0 <= i < |pieces| && Trim(pieces[i]) != "" ==> Trim(pieces[i]) in Labels(pieces)
  {
    if pieces != [] {
      var p := pieces[..|pieces| - 1];
      var t := Trim(pieces[|pieces| - 1]);
      LabelsComplete(p);
      assert Labels(pieces) == Labels(p) + (if t == "" then [] else [t]);
      forall i | 0 <= i < |pieces| && Trim(pieces[i]) != ""
        ensures Trim(pieces[i]) in Labels(pieces)
      {
        if i < |p| { assert pieces[i] == p[i]; }
      }
    }
  }

  lemma {:induction false} LabelsLength(pieces: seq<string>)
    ensures |Labels(pieces)| <= |pieces|
  {
    if pieces != [] {
      LabelsLength(pieces[..|pieces| - 1]);
    }
  }

  lemma LabelsStep(pieces: seq<string>, i: nat)
    requires i < |pieces|
    ensures Labels(pieces[..i + 1]) ==
              Labels(pieces[..i]) + (if Trim(pieces[i]) == "" then [] else [Trim(pieces[i])])
  {
    assert pieces[..i + 1][..i] == pieces[..i];
  }

  lemma AssignStep(labels: seq<string>, l: string, t: Tally)
    ensures Assign(labels + [l], t) == Put(Assign(labels, t), l, t)
  {
    assert (labels + [l])[..|labels|] == labels;
  }

  /** The labels of a prefix of the pieces are a prefix of all the labels. */
  lemma {:induction false} LabelsPrefix(pieces: seq<string>, n: nat)
    requires n <= |pieces|
    ensures Labels(pieces[..n]) <= Labels(pieces)
  {
    if n < |pieces| {
      var p := pieces[..|pieces| - 1];
      LabelsPrefix(p, n);
      assert p[..n] == pieces[..n];
    } else {
      assert pieces[..n] == pieces;
    }
  }

  /** What parsing promises: at most `MaxOptions` distinct options, exactly the
      distinct labels among the first `MaxOptions` non-empty trimmed pieces,
      in first-seen order, each starting with an empty tally. */
  lemma ParsedOptions(optionString: string, anonymity: bool)
    ensures var o := InitialOptions(optionString, anonymity);
      && WellFormed(o)
      && |o.keys| <= MaxOptions
      && o.keys == Dedup(KeptLabels(optionString))
      && KeptLabels(optionString) <= Labels(Split(optionString, ','))
      && (|Labels(Split(optionString, ','))| >= MaxOptions ==> |KeptLabels(optionString)| == MaxOptions)
      && (forall k :: k in o.values ==> o.values[k] == InitialTally(anonymity))
  {
    var kept := KeptLabels(optionString);
    AssignSpec(kept, InitialTally(anonymity));
    DedupDistinct(kept);
    DedupElements(kept);
    DedupLength(kept);
  }

  /** The option loop of `createVote`: split on `,`, trim, skip empty
      pieces, assign the initial tally, stop after `MaxOptions` non-empty
      pieces. */
  method BuildOptions(optionString: string, anonymity: bool) returns (options: OrderedMap<Tally>)
    ensures options == InitialOptions(optionString, anonymity)
    ensures WellFormed(options) && |options.keys| <= MaxOptions
    ensures forall k :: k in options.values ==> options.values[k] == InitialTally(anonymity)
  {
    var pieces := Split(optionString, ',');
    var tally := InitialTally(anonymity);
    options := Empty();
    var n := 0;
    var i := 0;
    ghost var seen: seq<string> := [];
    while i < |pieces|
      invariant 0 <= i <= |pieces|
      invariant seen == Labels(pieces[..i])
      invariant n == |seen| < MaxOptions
      invariant options == Assign(seen, tally)
    {
      var text := Trim(pieces[i]);
      LabelsStep(pieces, i);
      i := i + 1;
      if text == "" {
        continue;
      }
      AssignStep(seen, text, tally);
      seen := seen + [text];
      options := Put(options, text, tally);
      n := n + 1;
      if n >= MaxOptions {
        KeptAtCap(pieces, i);
        break;
      }
    }
    if n < MaxOptions {
      assert pieces[..i] == pieces;
    }
    ParsedOptions(optionString, anonymity);
  }

  lemma KeptAtCap(pieces: seq<string>, i: nat)
    requires i <= |pieces| && |Labels(pieces[..i])| == MaxOptions
    ensures Take(Labels(pieces), MaxOptions) == Labels(pieces[..i])
  {
    LabelsPrefix(pieces, i);
  }

  /** The vote `createVote` stores for a new title. */
  function NewVote(title: string, description: Option<string>, anonymity: bool, optionString: string): Vote
  {
    Vote(title, description, anonymity, InitialOptions(optionString, anonymity), [])
  }

  /** A new vote satisfies the vote invariant and has no ballots. */
  lemma NewVoteValid(title: string, description: Option<string>, anonymity: bool, optionString: string)
    ensures ValidVote(NewVote(title, description, anonymity, optionString))
    ensures NewVote(title, description, anonymity, optionString).voters == []
  {
    var o := InitialOptions(optionString, anonymity);
    ParsedOptions(optionString, anonymity);
    if anonymity {
      ZeroCountSum(o.keys, o.values);
    }
  }

  lemma {:induction false} ZeroCountSum(keys: seq<string>, values: map<string, Tally>)
    requires forall k :: k in values ==> values[k] == Count(0)
    ensures CountSum(keys, values) == 0
  {
    if keys != [] { ZeroCountSum(keys[..|keys| - 1], values); }
  }

  // ---------------------------------------------------------------------
  // Ballots

  /** One ballot by `userID` for option `voteID`: `None` when an anonymous
      voter tries again. Anonymous: record the voter and count one more.
      Named: remove the user's entry under the option, or add it. */
  function Ballot(v: Vote, voteID: string, userID: string, name: string): (r: Option<Vote>)
    requires ValidVote(v) && voteID in v.options.values
    ensures r.None? <==> v.anonymity && userID in v.voters
    ensures r.Some? ==> ValidVote(r.value)
    ensures r.Some? ==> && r.value.title == v.title && r.value.description == v.description
                        && r.value.anonymity == v.anonymity
                        && r.value.options.keys == v.options.keys
                        && r.value.options.values.Keys == v.options.values.Keys
    ensures r.Some? ==> forall k :: k in v.options.values && k != voteID ==>
                          r.value.options.values[k] == v.options.values[k]
  {
    if v.anonymity then
      if userID in v.voters then None
      else
        var c := v.options.values[voteID].n;
        CountSumIncrement(v.options.keys, v.options.values, voteID);
        Some(v.(voters := v.voters + [userID], options := Put(v.options, voteID, Count(c + 1))))
    else
      var names := v.options.values[voteID].names;
      var names' := if userID in names.values then Remove(names, userID) else Put(names, userID, name);
      Some(v.(options := Put(v.options, voteID, Ballots(names'))))
  }

  /** Counting one more under one key raises the sum by one. */
  lemma {:induction false} CountSumIncrement(keys: seq<string>, values: map<string, Tally>, k: string)
    requires Distinct(keys) && k in keys && k in values && values[k].Count?
    ensures CountSum(keys, values[k := Count(values[k].n + 1)]) == CountSum(keys, values) + 1
  {
    var p := keys[..|keys| - 1];
    var w := values[k := Count(values[k].n + 1)];
    if keys[|keys| - 1] == k {
      assert k !in p;
      CountSumFrame(p, values, w);
    } else {
      assert Distinct(p);
      CountSumIncrement(p, values, k);
    }
  }

  lemma {:induction false} CountSumFrame(keys: seq<string>, a: map<string, Tally>, b: map<string, Tally>)
    requires forall k :: k in keys ==> (k in a <==> k in b) && (k in a ==> a[k] == b[k])
    ensures CountSum(keys, a) == CountSum(keys, b)
  {
    if keys != [] { CountSumFrame(keys[..|keys| - 1], a, b); }
  }

  /** An anonymous ballot by a new voter appends the voter and raises the
      chosen counter by exactly one. */
  lemma AnonymousBallot(v: Vote, voteID: string, userID: string, name: string)
    requires ValidVote(v) && voteID in v.options.values
    requires v.anonymity && userID !in v.voters
    ensures var r := Ballot(v, voteID, userID, name);
      && r.Some?
      && r.value.voters == v.voters + [userID]
      && r.value.options.values[voteID] == Count(v.options.values[voteID].n + 1)
  {
  }

  /** In an anonymous vote the second ballot of a user, on any option, is
      refused. */
  lemma AnonymousVoteIsFinal(v: Vote, a: string, b: string, userID: string, name: string, name': string)
    requires ValidVote(v) && a in v.options.values && b in v.options.values
    requires v.anonymity
    ensures Ballot(v, a, userID, name).Some? ==> Ballot(Ballot(v, a, userID, name).value, b, userID, name') == None
  {
  }

  /** A named ballot toggles the user's entry under the chosen option and
      leaves the voters list alone; an added user goes last in the option's
      order, a removed one leaves the others in their order. */
  lemma NamedBallotToggles(v: Vote, voteID: string, userID: string, name: string)
    requires ValidVote(v) && voteID in v.options.values && !v.anonymity
    ensures var r := Ballot(v, voteID, userID, name);
      var before := v.options.values[voteID].names;
      && r.Some?
      && r.value.voters == v.voters
      && r.value.options.values[voteID].Ballots?
      && var after := r.value.options.values[voteID].names;
      && (userID in after.values <==> userID !in before.values)
      && (userID !in before.values ==> after.values[userID] == name)
      && (forall u :: u != userID ==> (u in after.values <==> u in before.values))
      && (forall u :: u != userID && u in before.values ==> after.values[u] == before.values[u])
      && (userID !in before.values ==> after.keys == before.keys + [userID])
      && (userID in before.values ==> after.keys == RemoveElem(before.keys, userID))
  {
  }

  /** Two identical named ballots by a user who had not voted for that option
      give back the original vote. */
  lemma NamedBallotTwiceRestores(v: Vote, voteID: string, userID: string, name: string)
    requires ValidVote(v) && voteID in v.options.values && !v.anonymity
    requires userID !in v.options.values[voteID].names.values
    ensures var once := Ballot(v, voteID, userID, name);
      once.Some? && Ballot(once.value, voteID, userID, name) == Some(v)
  {
    var names := v.options.values[voteID].names;
    var once := Ballot(v, voteID, userID, name).value;
    assert once.options.values[voteID] == Ballots(Put(names, userID, name));
    RemoveAfterPut(names, userID, name);
    PutBack(v.options, voteID, Ballots(Put(names, userID, name)));
  }

  /** When the user had voted for that option, two identical ballots restore
      who voted and under which names, provided the display name is the one
      recorded; the user's entry moves to the end of the option's order. */
  lemma NamedBallotTwiceReorders(v: Vote, voteID: string, userID: string, name: string)
    requires ValidVote(v) && voteID in v.options.values && !v.anonymity
    requires userID in v.options.values[voteID].names.values
    requires name == v.options.values[voteID].names.values[userID]
    ensures var once := Ballot(v, voteID, userID, name);
      once.Some? &&
      var twice := Ballot(once.value, voteID, userID, name);
      var names := v.options.values[voteID].names;
      && twice.Some?
      && twice.value.options.values[voteID].names.values == names.values
      && twice.value.options.values[voteID].names.keys == RemoveElem(names.keys, userID) + [userID]
  {
    var names := v.options.values[voteID].names;
    PutAfterRemove(names, userID);
    RemoveElemSpec(names.keys, userID);
  }

  /** A user who is the last entry of the option, voting twice under the
      recorded name, also gives back the original vote exactly: the re-added
      key lands where it was. */
  lemma NamedBallotTwiceRestoresLast(v: Vote, voteID: string, userID: string, name: string)
    requires ValidVote(v) && voteID in v.options.values && !v.anonymity
    requires v.options.values[voteID].names.keys != []
    requires userID == v.options.values[voteID].names.keys[|v.options.values[voteID].names.keys| - 1]
    requires name == v.options.values[voteID].names.values[userID]
    ensures var once := Ballot(v, voteID, userID, name);
      once.Some? && Ballot(once.value, voteID, userID, name) == Some(v)
  {
    var names := v.options.values[voteID].names;
    var p := names.keys[..|names.keys| - 1];
    assert names.keys == p + [userID];
    assert userID !in p;
    RemoveElemLast(p, userID);
    PutAfterRemove(names, userID);
    var removed := Remove(names, userID);
    assert Put(removed, userID, name) == names;
    PutBack(v.options, voteID, Ballots(removed));
  }

  /** A named voter may hold ballots on two options at once. */
  lemma NamedBallotsOnTwoOptions(v: Vote, a: string, b: string, userID: string, name: string)
    requires ValidVote(v) && a in v.options.values && b in v.options.values && a != b && !v.anonymity
    requires userID !in v.options.values[a].names.values && userID !in v.options.values[b].names.values
    ensures var once := Ballot(v, a, userID, name);
      once.Some? &&
      var twice := Ballot(once.value, b, userID, name);
      && twice.Some?
      && userID in twice.value.options.values[a].names.values
      && userID in twice.value.options.values[b].names.values
  {
    NamedBallotToggles(v, a, userID, name);
    NamedBallotToggles(Ballot(v, a, userID, name).value, b, userID, name);
  }

  // ---------------------------------------------------------------------
  // Rendering

  datatype Field = Field(name: string, value: string, inline: bool)

  datatype Embed = Embed(title: string, description: Option<string>, fields: seq<Field>)

  /** The text shown for one option. */
  function FieldValue(t: Tally): (r: string)
    requires t.Ballots? ==> WellFormed(t.names)
    ensures t.Count? ==> r != "" && (forall i :: 0 <= i < |r| ==> IsDigit(r[i])) && DecimalValue(r) == t.n
    ensures t.Ballots? && t.names.keys == [] ==> r == "-"
    ensures t.Ballots? && t.names.keys != [] && NoneContains(Values(t.names), '\n') ==>
              Split(r, '\n') == Values(t.names) + [""]
  {
    match t
    case Count(n) =>
      NatToStringDecimal(n);
      NatToString(n)
    case Ballots(names) =>
      if names.keys == [] then "-"
      else
        SplitJoinLines(Values(names));
        JoinLines(Values(names))
  }

  /** One field per option, in key order. */
  function TallyFields(v: Vote): (r: seq<Field>)
    requires ValidVote(v)
    ensures |r| == |v.options.keys|
    ensures forall i :: 0 <= i < |r| ==>
              r[i] == Field(v.options.keys[i], FieldValue(v.options.values[v.options.keys[i]]), true)
  {
    seq(|v.options.keys|, i requires 0 <= i < |v.options.keys| requires ValidVote(v) =>
      var k := v.options.keys[i];
      Field(k, FieldValue(v.options.values[k]), true))
  }

  /** Every option has a field, named by the option, and no option has two. */
  lemma TallyFieldsPerOption(v: Vote)
    requires ValidVote(v)
    ensures var r := TallyFields(v);
      && (forall k :: k in v.options.values <==> exists i :: 0 <= i < |r| && r[i].name == k)
      && (forall i, j :: 0 <= i < j < |r| ==> r[i].name != r[j].name)
  {
    var r := TallyFields(v);
    forall k | k in v.options.values ensures exists i :: 0 <= i < |r| && r[i].name == k {
      var i := FirstIndex(v.options.keys, k);
      assert r[i].name == k;
    }
  }

  /** The embed `getResult` builds. */
  function TallyEmbed(v: Vote): Embed
    requires ValidVote(v)
  {
    Embed(v.title, v.description, TallyFields(v))
  }

  /** `getResult`: for each option the text starts as `-`; an anonymous option
      shows its counter, a named option appends each display name and a
      newline and then drops the dash if anything was appended. */
  method GetResult(v: Vote) returns (embed: Embed)
    requires ValidVote(v)
    ensures embed == TallyEmbed(v)
    ensures embed.description == v.description
    ensures |embed.fields| == |v.options.keys|
  {
    var options := v.options.keys;
    var fields := [];
    for i := 0 to |options|
      invariant |fields| == i
      invariant forall j :: 0 <= j < i ==> fields[j] == TallyFields(v)[j]
    {
      var text := options[i];
      var result := WriteTally(v.anonymity, v.options.values[text]);
      fields := fields + [Field(text, result, true)];
    }
    embed := Embed(v.title, v.description, fields);
  }

  /** The text of one option in `getResult`. */
  method WriteTally(anonymity: bool, data: Tally) returns (result: string)
    requires TallyFits(anonymity, data)
    ensures result == FieldValue(data)
  {
    result := "-";
    if anonymity {
      // `result = data` holds a number, and a number has no length,
      // so the dash removal does not apply to it.
      result := NatToString(data.n);
    } else {
      var names := data.names;
      ghost var shown := Values(names);
      for j := 0 to |names.keys|
        invariant result == "-" + JoinLines(shown[..j])
      {
        JoinLinesStep(shown, j);
        result := result + names.values[names.keys[j]] + "\n";
      }
      NamedFieldText(names, result);
      if |result| > 1 {
        result := result[1..];
      }
    }
  }

  /** Dropping the leading dash exactly when names were appended gives the
      named field text. */
  lemma NamedFieldText(names: OrderedMap<string>, result: string)
    requires WellFormed(names)
    requires result == "-" + JoinLines(Values(names)[..|names.keys|])
    ensures (if |result| > 1 then result[1..] else result) == FieldValue(Ballots(names))
  {
    assert Values(names)[..|names.keys|] == Values(names);
    JoinLinesEmpty(Values(names));
  }

  /** A button per option; its custom id is the option text itself. */
  datatype Button = Button(customId: string, text: string)

  function Buttons(v: Vote): (r: seq<Button>)
    requires ValidVote(v)
    ensures |r| == |v.options.keys|
    ensures forall i :: 0 <= i < |r| ==> r[i].customId == r[i].text == v.options.keys[i]
    ensures forall i :: 0 <= i < |r| ==> r[i].customId in v.options.values
  {
    seq(|v.options.keys|, i requires 0 <= i < |v.options.keys| => Button(v.options.keys[i], v.options.keys[i]))
  }

  // ---------------------------------------------------------------------
  // The store

  /** The reply `registerVote` gives. */
  datatype Registration = VoteEnded | AlreadyVoted | Registered(tally: Embed)

  /** Every stored vote is valid and stored under its own title. */
  ghost predicate ValidStore(votes: map<string, Vote>)
  {
    forall t :: t in votes ==> votes[t].title == t && ValidVote(votes[t])
  }

  lemma StoreUpdate(votes: map<string, Vote>, v: Vote)
    requires ValidStore(votes) && ValidVote(v)
    ensures ValidStore(votes[v.title := v])
  {
  }

  /** The `votes` document: every open vote under its own title. */
  class VoteStore {
    var votes: map<string, Vote>

    ghost predicate Valid()
      reads this
    {
      ValidStore(votes)
    }

    constructor ()
      ensures Valid() && votes == map[]
    {
      votes := map[];
    }

    /** `createVote`: `None` (the source's `null`) when the title is taken;
        otherwise store and return a new vote. */
    method CreateVote(title: string, description: Option<string>, anonymity: bool, optionString: string)
      returns (vote: Option<Vote>)
      requires Valid()
      modifies this
      ensures Valid()
      ensures title in old(votes) ==> vote == None && votes == old(votes)
      ensures title !in old(votes) ==>
                vote == Some(NewVote(title, description, anonymity, optionString))
                && votes == old(votes)[title := vote.value]
    {
      if title in votes {
        return None;
      }
      var options := BuildOptions(optionString, anonymity);
      var v := Vote(title, description, anonymity, options, []);
      NewVoteValid(title, description, anonymity, optionString);
      StoreUpdate(votes, v);
      votes := votes[title := v];
      vote := Some(v);
    }

    /** `registerVote`: apply one ballot to the vote under `title`; only that
        entry of the store may change. */
    method RegisterVote(title: string, voteID: string, userID: string, name: string)
      returns (outcome: Registration)
      requires Valid()
      requires title in votes ==> voteID in votes[title].options.values
      modifies this
      ensures Valid()
      ensures title !in old(votes) ==> outcome == VoteEnded && votes == old(votes)
      ensures title in old(votes) ==>
                match Ballot(old(votes)[title], voteID, userID, name)
                case None => outcome == AlreadyVoted && votes == old(votes)
                case Some(v) => outcome == Registered(TallyEmbed(v)) && votes == old(votes)[title := v]
    {
      if title !in votes {
        return VoteEnded;
      }
      var vote := votes[title];
      ghost var expected := Ballot(vote, voteID, userID, name);
      if vote.anonymity {
        if userID in vote.voters {
          return AlreadyVoted;
        }
        vote := vote.(voters := vote.voters + [userID]);
        var c := vote.options.values[voteID].n;
        vote := vote.(options := Put(vote.options, voteID, Count(c + 1)));
      } else {
        var option := vote.options.values[voteID].names;
        if userID in option.values {
          option := Remove(option, userID);
        } else {
          option := Put(option, userID, name);
        }
        vote := vote.(options := Put(vote.options, voteID, Ballots(option)));
      }
      assert expected == Some(vote);
      StoreUpdate(votes, vote);
      votes := votes[title := vote];
      var tally := GetResult(vote);
      outcome := Registered(tally);
    }
  }
}
