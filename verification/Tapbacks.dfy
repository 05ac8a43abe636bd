/**
 * Reactions: from the raw add and remove events to the reactions that are live, and from those to
 * a summary for each message.
 */
module Tapbacks {
  import opened Options
  import opened Text

  datatype Tapback = Tapback(target: string, part: Option<string>, sender: Option<string>, kind: int, isFromMe: bool)

  datatype LiveTapback = LiveTapback(target: string, part: Option<string>, sender: Option<string>, isFromMe: bool,
                                     reaction: nat)

  /** What a later event must agree on to replace an earlier one. */
  datatype Key = Key(target: string, part: Option<string>, sender: Option<string>, reaction: nat)

  predicate IsAdd(t: Tapback) { 2000 <= t.kind <= 2005 }

  predicate IsRemove(t: Tapback) { 3000 <= t.kind <= 3005 }

  predicate Counts(t: Tapback) { IsAdd(t) || IsRemove(t) }

  function KeyOf(t: Tapback): Key
    requires Counts(t)
  {
    Key(t.target, t.part, t.sender, t.kind % 10)
  }

  function KeyOfLive(l: LiveTapback): Key { Key(l.target, l.part, l.sender, l.reaction) }

  /** The last event about a key. */
  ghost function Last(tapbacks: seq<Tapback>, key: Key): (last: Option<Tapback>)
    ensures last.Some? ==> Counts(last.value) && KeyOf(last.value) == key
  {
    if tapbacks == [] then None
    else
      var t := tapbacks[|tapbacks| - 1];
      if Counts(t) && KeyOf(t) == key then Some(t) else Last(tapbacks[..|tapbacks| - 1], key)
  }

  /** A key is live when the last event about it is an add. */
  ghost predicate Live(tapbacks: seq<Tapback>, key: Key) {
    Last(tapbacks, key).Some? && IsAdd(Last(tapbacks, key).value)
  }

  /** The same, by position. */
  ghost predicate LastAdd(tapbacks: seq<Tapback>, key: Key, k: nat) {
    && k < |tapbacks| && IsAdd(tapbacks[k]) && KeyOf(tapbacks[k]) == key
    && forall j :: k < j < |tapbacks| && Counts(tapbacks[j]) ==> KeyOf(tapbacks[j]) != key
  }

  lemma {:induction false} LiveIff(tapbacks: seq<Tapback>, key: Key)
    ensures Live(tapbacks, key) <==> exists k: nat :: LastAdd(tapbacks, key, k)
    decreases |tapbacks|
  {
    if tapbacks != [] {
      var n := |tapbacks| - 1;
      var front, t := tapbacks[..n], tapbacks[n];
      LiveIff(front, key);
      if Live(tapbacks, key) {
        if Counts(t) && KeyOf(t) == key {
          assert LastAdd(tapbacks, key, n);
        } else {
          var k: nat :| LastAdd(front, key, k);
          assert LastAdd(tapbacks, key, k);
        }
      }
      forall k: nat | LastAdd(tapbacks, key, k)
        ensures Live(tapbacks, key)
      {
        if k < n {
          assert Counts(t) ==> KeyOf(t) != key;
          assert LastAdd(front, key, k);
        }
      }
    }
  }

  /** The codes: 2000 to 2005 make the reaction of that number live, with its author; 3000 to 3005 end it;
      either leaves reactions of other people, messages, parts and numbers alone; any other code changes
      nothing. */
  lemma CodesSpelled(tapbacks: seq<Tapback>, t: Tapback, key: Key)
    ensures
      var now := tapbacks + [t];
      && (t.kind in {2000, 2001, 2002, 2003, 2004, 2005} ==>
            Winner(now, LiveTapback(t.target, t.part, t.sender, t.isFromMe, t.kind - 2000)))
      && (t.kind in {3000, 3001, 3002, 3003, 3004, 3005} ==>
            !Live(now, Key(t.target, t.part, t.sender, t.kind - 3000)))
      && (!(t.kind in {2000, 2001, 2002, 2003, 2004, 2005}
            && key == Key(t.target, t.part, t.sender, t.kind - 2000))
          && !(t.kind in {3000, 3001, 3002, 3003, 3004, 3005}
               && key == Key(t.target, t.part, t.sender, t.kind - 3000)) ==>
            Last(now, key) == Last(tapbacks, key))
  {
    assert (tapbacks + [t])[..|tapbacks|] == tapbacks;
  }

  /** A list of live reactions is right: each live key once, with the author of its last event. */
  ghost predicate LiveSet(tapbacks: seq<Tapback>, live: seq<LiveTapback>) {
    && (forall i, j :: 0 <= i < j < |live| ==> KeyOfLive(live[i]) != KeyOfLive(live[j]))
    && (forall i :: 0 <= i < |live| ==> Winner(tapbacks, live[i]))
    && (forall key :: Live(tapbacks, key) ==> Listed(live, key))
  }

  ghost predicate Winner(tapbacks: seq<Tapback>, l: LiveTapback) {
    Live(tapbacks, KeyOfLive(l)) && Last(tapbacks, KeyOfLive(l)).value.isFromMe == l.isFromMe
  }

  ghost predicate Listed(live: seq<LiveTapback>, key: Key) {
    exists i :: 0 <= i < |live| && KeyOfLive(live[i]) == key
  }

  /** The map from keys to their latest event. */
  ghost predicate Latest(tapbacks: seq<Tapback>, latest: map<Key, Tapback>) {
    forall key :: Last(tapbacks, key) == if key in latest then Some(latest[key]) else None
  }

  method LiveTapbacks(tapbacks: seq<Tapback>) returns (live: seq<LiveTapback>)
    ensures LiveSet(tapbacks, live)
  {
    var latest: map<Key, Tapback> := map[];
    for i := 0 to |tapbacks|
      invariant Latest(tapbacks[..i], latest)
    {
      var t := tapbacks[i];
      assert tapbacks[..i + 1][..i] == tapbacks[..i];
      if Counts(t) {
        latest := latest[KeyOf(t) := t];
      }
    }
    assert tapbacks[..|tapbacks|] == tapbacks;
    live := Adds(tapbacks, latest);
  }

  /** The adds among the latest events, in whatever order the map gives them. */
  method Adds(ghost tapbacks: seq<Tapback>, latest: map<Key, Tapback>) returns (live: seq<LiveTapback>)
    requires Latest(tapbacks, latest)
    ensures LiveSet(tapbacks, live)
  {
    live := [];
    var keys := latest.Keys;
    while keys != {}
      invariant keys <= latest.Keys
      invariant forall i :: 0 <= i < |live| ==> KeyOfLive(live[i]) in latest.Keys - keys && Winner(tapbacks, live[i])
      invariant forall i, j :: 0 <= i < j < |live| ==> KeyOfLive(live[i]) != KeyOfLive(live[j])
      invariant forall key :: key in latest.Keys - keys && IsAdd(latest[key]) ==> Listed(live, key)
      decreases keys
    {
      var key :| key in keys;
      keys := keys - {key};
      var t := latest[key];
      assert Last(tapbacks, key) == Some(t);
      if IsAdd(t) {
        var l := LiveTapback(t.target, t.part, t.sender, t.isFromMe, t.kind % 10);
        ListedMore(live, l);
        live := live + [l];
      }
    }
    forall key | Live(tapbacks, key)
      ensures Listed(live, key)
    {
      assert key in latest;
    }
  }

  lemma ListedMore(live: seq<LiveTapback>, l: LiveTapback)
    ensures Listed(live + [l], KeyOfLive(l))
    ensures forall key :: Listed(live, key) ==> Listed(live + [l], key)
  {
    assert KeyOfLive((live + [l])[|live|]) == KeyOfLive(l);
    forall key | Listed(live, key)
      ensures Listed(live + [l], key)
    {
      var i :| 0 <= i < |live| && KeyOfLive(live[i]) == key;
      assert KeyOfLive((live + [l])[i]) == key;
    }
  }

  // --- the summary for each message ---

  datatype Summary = Summary(reaction: nat, count: nat, mine: bool)

  datatype Slot = Slot(target: string, reaction: nat)

  datatype Group = Group(senders: set<Option<string>>, mine: bool)

  function SlotOf(l: LiveTapback): Slot { Slot(l.target, l.reaction) }

  ghost function Senders(live: seq<LiveTapback>, slot: Slot): set<Option<string>> {
    set l | l in live && SlotOf(l) == slot :: l.sender
  }

  ghost predicate Mine(live: seq<LiveTapback>, slot: Slot) {
    exists l :: l in live && SlotOf(l) == slot && l.isFromMe
  }

  ghost predicate Used(live: seq<LiveTapback>, slot: Slot) { exists l :: l in live && SlotOf(l) == slot }

  /** A summary counts the distinct senders of a reaction to a message. */
  ghost predicate Right(live: seq<LiveTapback>, target: string, s: Summary) {
    var slot := Slot(target, s.reaction);
    Used(live, slot) && s.count == |Senders(live, slot)| && s.mine == Mine(live, slot)
  }

  ghost predicate Rising(list: seq<Summary>) {
    forall i, j :: 0 <= i < j < |list| ==> list[i].reaction < list[j].reaction
  }

  ghost predicate Shown(list: seq<Summary>, reaction: nat) {
    exists i :: 0 <= i < |list| && list[i].reaction == reaction
  }

  /** Each message that was reacted to has one summary for each reaction, in order. */
  ghost predicate Summarised(live: seq<LiveTapback>, result: map<string, seq<Summary>>) {
    && (forall target :: target in result ==> result[target] != [] && Rising(result[target]))
    && (forall target, i :: target in result && 0 <= i < |result[target]| ==> Right(live, target, result[target][i]))
    && (forall l :: l in live ==> l.target in result && Shown(result[l.target], l.reaction))
  }

  ghost predicate Gathered(live: seq<LiveTapback>, groups: map<Slot, Group>) {
    forall slot :: (slot in groups <==> Used(live, slot))
                   && (slot in groups ==> groups[slot] == Group(Senders(live, slot), Mine(live, slot)))
  }

  method GroupTapbacksByTarget(live: seq<LiveTapback>) returns (result: map<string, seq<Summary>>)
    ensures Summarised(live, result)
  {
    var groups: map<Slot, Group> := map[];
    for i := 0 to |live|
      invariant Gathered(live[..i], groups)
    {
      var slot := SlotOf(live[i]);
      var group := if slot in groups then groups[slot] else Group({}, false);
      assert live[..i + 1] == live[..i] + [live[i]];
      GatherOne(live[..i], live[i], groups);
      groups := groups[slot := Group(group.senders + {live[i].sender}, group.mine || live[i].isFromMe)];
    }
    assert live[..|live|] == live;
    result := Collect(live, groups);
  }

  lemma GatherOne(live: seq<LiveTapback>, l: LiveTapback, groups: map<Slot, Group>)
    requires Gathered(live, groups)
    ensures
      var group := if SlotOf(l) in groups then groups[SlotOf(l)] else Group({}, false);
      Gathered(live + [l], groups[SlotOf(l) := Group(group.senders + {l.sender}, group.mine || l.isFromMe)])
  {
  }

  predicate SlotLess(a: Slot, b: Slot) {
    LexLess(a.target, b.target) || (a.target == b.target && a.reaction < b.reaction)
  }

  ghost predicate InOrder(slots: seq<Slot>) { forall i, j :: 0 <= i < j < |slots| ==> SlotLess(slots[i], slots[j]) }

  /** The pushes in the order of the sorted slots. */
  method Collect(ghost live: seq<LiveTapback>, groups: map<Slot, Group>) returns (result: map<string, seq<Summary>>)
    requires Gathered(live, groups)
    ensures Summarised(live, result)
  {
    hide Gathered, Right, InOrder, Used, Shown, Rising;
    var slots := Sort(groups.Keys);
    result := map[];
    for i := 0 to |slots|
      invariant Collected(live, slots[..i], result)
    {
      var slot := slots[i];
      var summary := Summary(slot.reaction, |groups[slot].senders|, groups[slot].mine);
      GatheredRight(live, groups, slot);
      PrefixInOrder(slots, i);
      var list := if slot.target in result then result[slot.target] else [];
      CollectOne(live, slots[..i], slot, summary, result);
      assert slots[..i + 1] == slots[..i] + [slot];
      result := result[slot.target := list + [summary]];
    }
    assert slots[..|slots|] == slots;
    AllCollected(live, groups, slots, result);
  }

  lemma GatheredRight(live: seq<LiveTapback>, groups: map<Slot, Group>, slot: Slot)
    requires Gathered(live, groups) && slot in groups
    ensures Right(live, slot.target, Summary(slot.reaction, |groups[slot].senders|, groups[slot].mine))
  {
  }

  lemma PrefixInOrder(slots: seq<Slot>, i: nat)
    requires InOrder(slots) && i < |slots|
    ensures InOrder(slots[..i] + [slots[i]])
  {
  }

  lemma AllCollected(live: seq<LiveTapback>, groups: map<Slot, Group>, slots: seq<Slot>,
                     result: map<string, seq<Summary>>)
    requires Gathered(live, groups) && (forall slot :: slot in slots <==> slot in groups.Keys)
    requires Collected(live, slots, result)
    ensures Summarised(live, result)
  {
    forall l | l in live
      ensures l.target in result && Shown(result[l.target], l.reaction)
    {
      assert Used(live, SlotOf(l)) && SlotOf(l) in slots;
    }
  }

  ghost predicate Collected(live: seq<LiveTapback>, slots: seq<Slot>, result: map<string, seq<Summary>>) {
    && (forall target :: target in result ==> result[target] != [] && Rising(result[target]))
    && (forall target, i :: target in result && 0 <= i < |result[target]| ==>
          Right(live, target, result[target][i]) && Slot(target, result[target][i].reaction) in slots)
    && (forall slot :: slot in slots ==> slot.target in result && Shown(result[slot.target], slot.reaction))
  }

  lemma CollectOne(live: seq<LiveTapback>, slots: seq<Slot>, slot: Slot, summary: Summary,
                   result: map<string, seq<Summary>>)
    requires Collected(live, slots, result) && InOrder(slots + [slot])
    requires summary.reaction == slot.reaction && Right(live, slot.target, summary)
    ensures
      var list := if slot.target in result then result[slot.target] else [];
      Collected(live, slots + [slot], result[slot.target := list + [summary]])
  {
    var list := if slot.target in result then result[slot.target] else [];
    var longer := list + [summary];
    LexTotal(slot.target, slot.target);
    forall i | 0 <= i < |list|
      ensures list[i].reaction < summary.reaction
    {
      var earlier := Slot(slot.target, list[i].reaction);
      var k :| 0 <= k < |slots| && slots[k] == earlier;
      assert SlotLess((slots + [slot])[k], (slots + [slot])[|slots|]);
    }
    assert longer[|list|] == summary;
    forall reaction | Shown(list, reaction)
      ensures Shown(longer, reaction)
    {
      var i :| 0 <= i < |list| && list[i].reaction == reaction;
      assert longer[i].reaction == reaction;
    }
  }

  /** Every slot once, in order. */
  method Sort(slots: set<Slot>) returns (sorted: seq<Slot>)
    ensures InOrder(sorted) && forall slot :: slot in sorted <==> slot in slots
  {
    sorted := [];
    var rest := slots;
    while rest != {}
      invariant rest <= slots && InOrder(sorted)
      invariant forall slot :: slot in sorted <==> slot in slots - rest
      decreases rest
    {
      var slot :| slot in rest;
      rest := rest - {slot};
      InsertKeepsOrder(slot, sorted);
      sorted := Insert(slot, sorted);
    }
  }

  function Insert(slot: Slot, sorted: seq<Slot>): seq<Slot> {
    if sorted == [] || SlotLess(slot, sorted[0]) then [slot] + sorted else [sorted[0]] + Insert(slot, sorted[1..])
  }

  lemma {:induction false} InsertKeepsOrder(slot: Slot, sorted: seq<Slot>)
    requires InOrder(sorted) && slot !in sorted
    ensures InOrder(Insert(slot, sorted))
    ensures forall x :: x in Insert(slot, sorted) <==> x == slot || x in sorted
    decreases sorted
  {
    if sorted != [] {
      assert sorted == [sorted[0]] + sorted[1..];
      if SlotLess(slot, sorted[0]) {
        forall i | 0 < i < |sorted|
          ensures SlotLess(slot, sorted[i])
        {
          SlotTransitive(slot, sorted[0], sorted[i]);
        }
      } else {
        SlotTotal(slot, sorted[0]);
        InsertKeepsOrder(slot, sorted[1..]);
        var rest := Insert(slot, sorted[1..]);
        forall i | 0 <= i < |rest|
          ensures SlotLess(sorted[0], rest[i])
        {
          assert rest[i] in rest;
          if rest[i] != slot {
            var j :| 0 <= j < |sorted[1..]| && sorted[1..][j] == rest[i];
          }
        }
      }
    }
  }

  lemma SlotTransitive(a: Slot, b: Slot, c: Slot)
    requires SlotLess(a, b) && SlotLess(b, c)
    ensures SlotLess(a, c)
  {
    if LexLess(a.target, b.target) && LexLess(b.target, c.target) {
      LexTransitive(a.target, b.target, c.target);
    }
  }

  lemma SlotTotal(a: Slot, b: Slot)
    ensures SlotLess(a, b) || a == b || SlotLess(b, a)
  {
    LexTotal(a.target, b.target);
  }

  // --- the two together ---

  /** The senders of a live reaction to some part of a message. */
  ghost predicate Reacts(tapbacks: seq<Tapback>, slot: Slot, sender: Option<string>) {
    exists part :: Live(tapbacks, Key(slot.target, part, sender, slot.reaction))
  }

  /** Composed, each count is the number of distinct senders with a live reaction to any part. */
  lemma CountsLiveSenders(tapbacks: seq<Tapback>, live: seq<LiveTapback>, result: map<string, seq<Summary>>,
                          target: string, i: nat)
    requires LiveSet(tapbacks, live) && Summarised(live, result) && target in result && i < |result[target]|
    ensures
      var s := result[target][i];
      var senders := Senders(live, Slot(target, s.reaction));
      && s.count == |senders| > 0
      && forall sender :: sender in senders <==> Reacts(tapbacks, Slot(target, s.reaction), sender)
  {
    var slot := Slot(target, result[target][i].reaction);
    assert Right(live, target, result[target][i]);
    var used :| used in live && SlotOf(used) == slot;
    assert used.sender in Senders(live, slot);
    forall sender
      ensures sender in Senders(live, slot) <==> Reacts(tapbacks, slot, sender)
    {
      if sender in Senders(live, slot) {
        var l :| l in live && SlotOf(l) == slot && l.sender == sender;
        assert Winner(tapbacks, l);
        assert KeyOfLive(l) == Key(slot.target, l.part, sender, slot.reaction);
      }
      if Reacts(tapbacks, slot, sender) {
        var part :| Live(tapbacks, Key(slot.target, part, sender, slot.reaction));
        assert Listed(live, Key(slot.target, part, sender, slot.reaction));
      }
    }
  }

  /** The summary does not depend on the order of the map: there is only one right answer. */
  lemma OneSummary(live: seq<LiveTapback>, a: map<string, seq<Summary>>, b: map<string, seq<Summary>>)
    requires Summarised(live, a) && Summarised(live, b)
    ensures a == b
  {
    SameTargets(live, a, b);
    SameTargets(live, b, a);
    forall target | target in a
      ensures a[target] == b[target]
    {
      SameReactions(live, a, b, target);
      SameReactions(live, b, a, target);
      SameList(live, target, a[target], b[target]);
    }
  }

  /** Whatever order both maps are walked in, the events determine the summary. */
  lemma OneSummaryOfEvents(tapbacks: seq<Tapback>, live: seq<LiveTapback>, other: seq<LiveTapback>,
                           a: map<string, seq<Summary>>, b: map<string, seq<Summary>>)
    requires LiveSet(tapbacks, live) && LiveSet(tapbacks, other)
    requires Summarised(live, a) && Summarised(other, b)
    ensures a == b
  {
    SameLive(tapbacks, live, other);
    SameLive(tapbacks, other, live);
    SummaryOfSet(live, other, a);
    OneSummary(other, a, b);
  }

  lemma SameLive(tapbacks: seq<Tapback>, live: seq<LiveTapback>, other: seq<LiveTapback>)
    requires LiveSet(tapbacks, live) && LiveSet(tapbacks, other)
    ensures forall l :: l in live ==> l in other
  {
    forall l | l in live
      ensures l in other
    {
      assert Winner(tapbacks, l);
      assert Listed(other, KeyOfLive(l));
      var i :| 0 <= i < |other| && KeyOfLive(other[i]) == KeyOfLive(l);
      assert Winner(tapbacks, other[i]);
      assert other[i] == l;
    }
  }

  lemma SummaryOfSet(live: seq<LiveTapback>, other: seq<LiveTapback>, result: map<string, seq<Summary>>)
    requires (forall l :: l in live <==> l in other) && Summarised(live, result)
    ensures Summarised(other, result)
  {
    forall target, i | target in result && 0 <= i < |result[target]|
      ensures Right(other, target, result[target][i])
    {
      var slot := Slot(target, result[target][i].reaction);
      assert Right(live, target, result[target][i]);
      assert Senders(live, slot) == Senders(other, slot);
    }
  }

  lemma SameTargets(live: seq<LiveTapback>, a: map<string, seq<Summary>>, b: map<string, seq<Summary>>)
    requires Summarised(live, a) && Summarised(live, b)
    ensures forall target :: target in a ==> target in b
  {
    forall target | target in a
      ensures target in b
    {
      assert Right(live, target, a[target][0]);
    }
  }

  lemma SameReactions(live: seq<LiveTapback>, a: map<string, seq<Summary>>, b: map<string, seq<Summary>>,
                      target: string)
    requires Summarised(live, a) && Summarised(live, b) && target in a && target in b
    ensures forall r :: Shown(a[target], r) ==> Shown(b[target], r)
  {
  }

  ghost predicate SameShown(a: seq<Summary>, b: seq<Summary>) { forall r: nat :: Shown(a, r) <==> Shown(b, r) }

  ghost predicate AllRight(live: seq<LiveTapback>, target: string, list: seq<Summary>) {
    Rising(list) && forall i :: 0 <= i < |list| ==> Right(live, target, list[i])
  }

  lemma {:induction false} SameList(live: seq<LiveTapback>, target: string, a: seq<Summary>, b: seq<Summary>)
    requires AllRight(live, target, a) && AllRight(live, target, b) && SameShown(a, b)
    ensures a == b
    decreases |a|
  {
    if a == [] {
      assert b != [] ==> Shown(b, b[0].reaction);
    } else {
      SameLast(live, target, a, b);
      var a', b' := a[..|a| - 1], b[..|b| - 1];
      SameFront(a, b);
      SameList(live, target, a', b');
      assert a == a' + [a[|a| - 1]] && b == b' + [b[|b| - 1]];
    }
  }

  lemma SameLast(live: seq<LiveTapback>, target: string, a: seq<Summary>, b: seq<Summary>)
    requires AllRight(live, target, a) && AllRight(live, target, b) && SameShown(a, b) && a != []
    ensures b != [] && a[|a| - 1] == b[|b| - 1]
  {
    assert Shown(a, a[|a| - 1].reaction);
    assert Shown(b, b[|b| - 1].reaction);
    assert Right(live, target, a[|a| - 1]) && Right(live, target, b[|b| - 1]);
  }

  lemma SameFront(a: seq<Summary>, b: seq<Summary>)
    requires Rising(a) && Rising(b) && SameShown(a, b) && a != [] && b != [] && a[|a| - 1] == b[|b| - 1]
    ensures SameShown(a[..|a| - 1], b[..|b| - 1])
  {
    var a', b' := a[..|a| - 1], b[..|b| - 1];
    forall r: nat
      ensures Shown(a', r) <==> Shown(b', r)
    {
      ShownFront(a, r);
      ShownFront(b, r);
      assert Shown(a, r) <==> Shown(b, r);
    }
  }

  lemma ShownFront(a: seq<Summary>, r: nat)
    requires a != [] && Rising(a)
    ensures Shown(a[..|a| - 1], r) <==> Shown(a, r) && r != a[|a| - 1].reaction
  {
  }
}
