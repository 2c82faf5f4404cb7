/**
 * What whole runs of hash_tools.c promise: the table is a bag of (key, value), a map when no
 * present key is added again, and without removals a first-wins dictionary whose probe paths
 * have no holes.
 */
module HashRuns {
  import opened Wrappers
  import opened CStrings
  import opened HashTools

  type Item = (Bytes, Bytes)

  // ---------------------------------------------------------------- the abstract bag

  function Items(slot: Option<Entry>): multiset<Item> {
    match slot
    case None => multiset{}
    case Some(e) => multiset{(Name(e.key), e.value)}
  }

  function Bag(slots: Slots): multiset<Item> {
    if slots == [] then multiset{} else Items(slots[0]) + Bag(slots[1..])
  }

  lemma {:induction false} BagUpdate(slots: Slots, s: nat, x: Option<Entry>)
    requires s < |slots|
    ensures Items(slots[s]) <= Bag(slots)
    ensures Bag(slots[s := x]) == Bag(slots) - Items(slots[s]) + Items(x)
  {
    if s == 0 {
      assert slots[s := x][1..] == slots[1..];
      SwapHead(Items(slots[0]), Bag(slots[1..]), Items(x));
    } else {
      assert slots[s := x][1..] == slots[1..][s - 1 := x];
      BagUpdate(slots[1..], s - 1, x);
      SwapUnder(Items(slots[0]), Bag(slots[1..]), Items(slots[s]), Items(x));
    }
  }

  lemma SwapHead<T>(head: multiset<T>, rest: multiset<T>, into: multiset<T>)
    ensures into + rest == head + rest - head + into
  {
  }

  lemma SwapUnder<T>(head: multiset<T>, rest: multiset<T>, out: multiset<T>, into: multiset<T>)
    requires out <= rest
    ensures out <= head + rest
    ensures head + (rest - out + into) == head + rest - out + into
  {
  }

  lemma {:induction false} BagHolds(slots: Slots, item: Item)
    ensures item in Bag(slots) <==> exists s: nat :: s < |slots| && item in Items(slots[s])
  {
    if slots != [] {
      BagHolds(slots[1..], item);
      if s: nat :| s < |slots[1..]| && item in Items(slots[1..][s]) {
        assert item in Items(slots[s + 1]);
      }
      if s: nat :| s < |slots| && item in Items(slots[s]) {
        assert s == 0 || item in Items(slots[1..][s - 1]);
      }
    }
  }

  lemma {:induction false} BagSize(slots: Slots)
    ensures |Bag(slots)| <= |slots|
    ensures |Bag(slots)| == |slots| <==> forall s: nat :: s < |slots| ==> slots[s].Some?
  {
    if slots != [] {
      BagSize(slots[1..]);
      if |Bag(slots)| == |slots| {
        assert forall s: nat :: 0 < s < |slots| ==> slots[s] == slots[1..][s - 1];
      }
    }
  }

  /** The usable slots are all taken exactly when the bag has `|slots| - 1` items. */
  lemma BagFull(slots: Slots)
    requires ValidSlots(slots)
    ensures |Bag(slots)| <= |slots| - 1
    ensures |Bag(slots)| == |slots| - 1 <==> forall s: nat :: 1 <= s < |slots| ==> slots[s].Some?
  {
    BagSize(slots[1..]);
    assert Bag(slots) == Bag(slots[1..]);
    if |Bag(slots)| == |slots| - 1 {
      assert forall s: nat :: 1 <= s < |slots| ==> slots[s] == slots[1..][s - 1];
    }
  }

  /** What one call may do to a bag that holds at most `limit` items. */
  ghost predicate BagStep(bag: multiset<Item>, op: Op, reply: Reply, bag': multiset<Item>, limit: nat) {
    match op
    case Add(key, value, memory) =>
      && reply.Added?
      && (reply.ok <==> key != [] && value != [] && |bag| < limit && memory)
      && bag' == if reply.ok then bag + multiset{(Name(key), value)} else bag
    case Remove(key) =>
      && reply.Removed?
      && (reply.ok <==> key != [] && exists v :: (Name(key), v) in bag)
      && (if reply.ok then exists v :: (Name(key), v) in bag && bag' == bag - multiset{(Name(key), v)}
          else bag' == bag)
    case Fetch(key) =>
      && reply.Fetched?
      && (reply.value.Some? <==> key != [] && exists v :: (Name(key), v) in bag)
      && (reply.value.Some? ==> (Name(key), reply.value.value) in bag)
      && bag' == bag
  }

  lemma BagInsert(slots: Slots, s: nat, e: Entry)
    requires s < |slots| && slots[s].None?
    ensures Bag(slots[s := Some(e)]) == Bag(slots) + multiset{(Name(e.key), e.value)}
  {
    hide Bag, Name;
    BagUpdate(slots, s, Some(e));
  }

  lemma AddRefinesBag(slots: Slots, op: Op)
    requires ValidSlots(slots) && op.Add?
    ensures BagStep(Bag(slots), op, Step(slots, op).1, Bag(Step(slots, op).0), |slots| - 1)
  {
    hide Bag, Search, Home, Name, Items;
    BagFull(slots);
    if op.key != [] {
      var s := Search(slots, Home(op.key, |slots|), Free);
      if s.Some? {
        BagInsert(slots, s.value, Entry(op.key, op.value));
      }
    }
  }

  /** A search by name finds an item of the bag, or the bag has none of that name. */
  lemma SearchSeesBag(slots: Slots, key: Bytes)
    requires ValidSlots(slots) && key != []
    ensures var s := Search(slots, Home(key, |slots|), Named(Name(key)));
            && (s.None? ==> forall v :: (Name(key), v) !in Bag(slots))
            && (s.Some? ==> slots[s.value].Some?)
            && (s.Some? ==> Items(slots[s.value]) == multiset{(Name(key), slots[s.value].value.value)})
            && (s.Some? ==> (Name(key), slots[s.value].value.value) in Bag(slots))
  {
    var s := Search(slots, Home(key, |slots|), Named(Name(key)));
    if s.Some? {
      BagUpdate(slots, s.value, None);
    } else {
      forall v ensures (Name(key), v) !in Bag(slots) {
        BagHolds(slots, (Name(key), v));
      }
    }
  }

  lemma StepRefinesBag(slots: Slots, op: Op)
    requires ValidSlots(slots)
    ensures BagStep(Bag(slots), op, Step(slots, op).1, Bag(Step(slots, op).0), |slots| - 1)
  {
    if op.Add? {
      AddRefinesBag(slots, op);
    } else if op.key != [] {
      SearchSeesBag(slots, op.key);
      var s := Search(slots, Home(op.key, |slots|), Named(Name(op.key)));
      if s.Some? {
        BagUpdate(slots, s.value, None);
      }
    }
  }

  // ---------------------------------------------------------------- runs

  function Run(slots: Slots, ops: seq<Op>): (r: (Slots, seq<Reply>))
    requires ValidSlots(slots)
    ensures ValidSlots(r.0) && |r.0| == |slots| && |r.1| == |ops|
    decreases |ops|
  {
    if ops == [] then (slots, [])
    else
      var (mid, reply) := Step(slots, ops[0]);
      var (end, replies) := Run(mid, ops[1..]);
      (end, [reply] + replies)
  }

  /** `replies` and `bag'` are a possible outcome of `ops` on a bag of at most `limit` items. */
  ghost predicate BagRun(bag: multiset<Item>, ops: seq<Op>, replies: seq<Reply>, bag': multiset<Item>, limit: nat)
    decreases |ops|
  {
    |replies| == |ops| &&
    if ops == [] then bag' == bag
    else exists mid :: BagStep(bag, ops[0], replies[0], mid, limit) && BagRun(mid, ops[1..], replies[1..], bag', limit)
  }

  lemma {:induction false} RunRefinesBag(slots: Slots, ops: seq<Op>)
    requires ValidSlots(slots)
    ensures BagRun(Bag(slots), ops, Run(slots, ops).1, Bag(Run(slots, ops).0), |slots| - 1)
    decreases |ops|
  {
    if ops != [] {
      var (mid, reply) := Step(slots, ops[0]);
      StepRefinesBag(slots, ops[0]);
      RunRefinesBag(mid, ops[1..]);
      assert Run(slots, ops).1[1..] == Run(mid, ops[1..]).1;
    }
  }

  function Empty(numEntries: nat): (slots: Slots)
    requires 1 <= numEntries
    ensures ValidSlots(slots) && |slots| == 2 * numEntries
  {
    seq(2 * numEntries, _ => None)
  }

  lemma {:induction false} BagOfNone(slots: Slots)
    requires forall s: nat :: s < |slots| ==> slots[s].None?
    ensures Bag(slots) == multiset{}
  {
    if slots != [] { BagOfNone(slots[1..]); }
  }

  /** Every run of a fresh table is a run of the empty bag with room for `2c - 1` items. */
  lemma TableIsABag(numEntries: nat, ops: seq<Op>)
    requires 1 <= numEntries
    ensures var (end, replies) := Run(Empty(numEntries), ops);
            BagRun(multiset{}, ops, replies, Bag(end), 2 * numEntries - 1)
  {
    BagOfNone(Empty(numEntries));
    RunRefinesBag(Empty(numEntries), ops);
  }

  function Adds(ops: seq<Op>): nat {
    if ops == [] then 0 else (if ops[0].Add? then 1 else 0) + Adds(ops[1..])
  }

  lemma StepGrowth(slots: Slots, op: Op)
    requires ValidSlots(slots)
    ensures |Bag(Step(slots, op).0)| <= |Bag(slots)| + if op.Add? then 1 else 0
    ensures op.Add? && op.key != [] && op.value != [] && op.memory && |Bag(slots)| < |slots| - 1 ==>
              Step(slots, op).1.Added? && Step(slots, op).1.ok
  {
    StepRefinesBag(slots, op);
  }

  /** While the bag and the adds still to come fit the usable slots, no well-formed add is refused. */
  lemma {:induction false} AddsFit(slots: Slots, ops: seq<Op>, i: nat)
    requires ValidSlots(slots) && i < |ops|
    requires |Bag(slots)| + Adds(ops[..i + 1]) <= |slots| - 1
    requires ops[i].Add? && ops[i].key != [] && ops[i].value != [] && ops[i].memory
    ensures Run(slots, ops).1[i].Added? && Run(slots, ops).1[i].ok
    decreases |ops|
  {
    StepGrowth(slots, ops[0]);
    assert ops[..i + 1][1..] == ops[1..][..i];
    if i > 0 {
      AddsFit(Step(slots, ops[0]).0, ops[1..], i - 1);
    }
  }

  /** In a fresh table of capacity c the first 2c - 1 adds, hence the first c, always find room. */
  lemma FirstAddsFit(numEntries: nat, ops: seq<Op>, i: nat)
    requires 1 <= numEntries && i < |ops| && Adds(ops[..i + 1]) <= 2 * numEntries - 1
    requires ops[i].Add? && ops[i].key != [] && ops[i].value != [] && ops[i].memory
    ensures Run(Empty(numEntries), ops).1[i].Added? && Run(Empty(numEntries), ops).1[i].ok
  {
    BagOfNone(Empty(numEntries));
    AddsFit(Empty(numEntries), ops, i);
  }

  // ---------------------------------------------------------------- the map

  /** A dictionary of at most `limit` keys; `reply` without the slot number an add reports. */
  function MapStep(m: map<Bytes, Bytes>, op: Op, limit: nat): (r: (map<Bytes, Bytes>, bool, Option<Bytes>)) {
    if op.key == [] then (m, false, None)
    else
      match op
      case Add(key, value, memory) =>
        if value != [] && |m| < limit && memory then (m[Name(key) := value], true, None) else (m, false, None)
      case Remove(key) => (m - {Name(key)}, Name(key) in m, None)
      case Fetch(key) => if Name(key) in m then (m, true, Some(m[Name(key)])) else (m, false, None)
  }

  predicate MapReply(reply: Reply, op: Op, ok: bool, value: Option<Bytes>) {
    match op
    case Add(_, _, _) => reply.Added? && reply.ok == ok
    case Remove(_) => reply.Removed? && reply.ok == ok
    case Fetch(_) => reply.Fetched? && reply.value == value && value.Some? == ok
  }

  ghost predicate IsMap(bag: multiset<Item>, m: map<Bytes, Bytes>) {
    && |bag| == |m|
    && forall k, v :: bag[(k, v)] == if k in m && m[k] == v then 1 else 0
  }

  lemma MapRemove(bag: multiset<Item>, m: map<Bytes, Bytes>, k: Bytes)
    requires IsMap(bag, m)
    ensures k in m ==> IsMap(bag - multiset{(k, m[k])}, m - {k})
    ensures k !in m ==> m - {k} == m
  {
    if k in m {
      assert (k, m[k]) in bag;
      assert (m - {k}).Keys == m.Keys - {k};
      assert |(m - {k}).Keys| == |m.Keys| - 1;
    }
  }

  /** A bag step that adds no present key is the step of the dictionary. */
  lemma BagStepIsMapStep(bag: multiset<Item>, m: map<Bytes, Bytes>, op: Op, reply: Reply, bag': multiset<Item>,
                         limit: nat)
    requires IsMap(bag, m) && BagStep(bag, op, reply, bag', limit)
    requires op.Add? ==> Name(op.key) !in m
    ensures var (m', ok, value) := MapStep(m, op, limit); MapReply(reply, op, ok, value) && IsMap(bag', m')
  {
    var k := Name(op.key);
    MapRemove(bag, m, k);
    if k in m {
      assert (k, m[k]) in bag;
    }
  }

  /** No add in `ops` names a key the dictionary holds at that point. */
  ghost predicate AddsAreFresh(m: map<Bytes, Bytes>, ops: seq<Op>, limit: nat)
    decreases |ops|
  {
    ops != [] ==>
      && (ops[0].Add? ==> Name(ops[0].key) !in m)
      && AddsAreFresh(MapStep(m, ops[0], limit).0, ops[1..], limit)
  }

  ghost predicate MapReplies(m: map<Bytes, Bytes>, ops: seq<Op>, replies: seq<Reply>, limit: nat)
    decreases |ops|
  {
    && |replies| == |ops|
    && (ops != [] ==>
          var (m', ok, value) := MapStep(m, ops[0], limit);
          MapReply(replies[0], ops[0], ok, value) && MapReplies(m', ops[1..], replies[1..], limit))
  }

  lemma StepRefinesMap(slots: Slots, m: map<Bytes, Bytes>, op: Op)
    requires ValidSlots(slots) && IsMap(Bag(slots), m) && (op.Add? ==> Name(op.key) !in m)
    ensures var (m', ok, value) := MapStep(m, op, |slots| - 1);
            MapReply(Step(slots, op).1, op, ok, value) && IsMap(Bag(Step(slots, op).0), m')
  {
    StepRefinesBag(slots, op);
    BagStepIsMapStep(Bag(slots), m, op, Step(slots, op).1, Bag(Step(slots, op).0), |slots| - 1);
  }

  lemma {:induction false} RunRefinesMap(slots: Slots, m: map<Bytes, Bytes>, ops: seq<Op>)
    requires ValidSlots(slots) && IsMap(Bag(slots), m) && AddsAreFresh(m, ops, |slots| - 1)
    ensures MapReplies(m, ops, Run(slots, ops).1, |slots| - 1)
    decreases |ops|
  {
    hide Step, MapStep, MapReply, IsMap, Bag;
    if ops != [] {
      var (mid, reply) := Step(slots, ops[0]);
      StepRefinesMap(slots, m, ops[0]);
      RunRefinesMap(mid, MapStep(m, ops[0], |slots| - 1).0, ops[1..]);
      assert Run(slots, ops).1 == [reply] + Run(mid, ops[1..]).1;
    }
  }

  /** A fresh table whose present keys are never added again answers exactly like a dictionary. */
  lemma TableIsAMap(numEntries: nat, ops: seq<Op>)
    requires 1 <= numEntries && AddsAreFresh(map[], ops, 2 * numEntries - 1)
    ensures MapReplies(map[], ops, Run(Empty(numEntries), ops).1, 2 * numEntries - 1)
  {
    BagOfNone(Empty(numEntries));
    RunRefinesMap(Empty(numEntries), map[], ops);
  }

  // ---------------------------------------------------------------- removal

  /** Fetch then remove: the removed entry is the one whose value the fetch returned. */
  lemma RemoveTakesWhatFetchReturns(slots: Slots, key: Bytes)
    requires ValidSlots(slots)
    ensures var found := Step(slots, Fetch(key)).1.value;
            var (slots', removed) := Step(slots, Remove(key));
            && removed.ok == found.Some?
            && Bag(slots') == if found.Some? then Bag(slots) - multiset{(Name(key), found.value)} else Bag(slots)
  {
    if key != [] {
      SearchSeesBag(slots, key);
      var s := Search(slots, Home(key, |slots|), Named(Name(key)));
      if s.Some? { BagUpdate(slots, s.value, None); }
    }
  }

  /** A probe does not notice a change in a slot that is no hit before and after. */
  lemma {:induction false} ProbeIgnores(slots: Slots, home: nat, i: nat, want: Want, s: nat, x: Option<Entry>)
    requires 1 <= home < |slots| && i < |slots| && s < |slots|
    requires !Hits(slots[s], want) && !Hits(x, want)
    ensures Probe(slots[s := x], home, i, want) == Probe(slots, home, i, want)
    decreases |slots| - i
  {
    if i < |slots| - 1 { ProbeIgnores(slots, home, i + 1, want, s, x); }
  }

  /** Holes left by a removal hide no other key. */
  lemma RemoveKeepsOthers(slots: Slots, key: Bytes, other: Bytes)
    requires ValidSlots(slots) && Name(key) != Name(other)
    ensures Step(Step(slots, Remove(key)).0, Fetch(other)).1 == Step(slots, Fetch(other)).1
  {
    if key != [] && other != [] {
      var s := Search(slots, Home(key, |slots|), Named(Name(key)));
      if s.Some? {
        ProbeIgnores(slots, Home(other, |slots|), 0, Named(Name(other)), s.value, None);
      }
    }
  }

  /** How many entries `strcmp` equates with `key`. */
  function Copies(slots: Slots, key: Bytes): nat {
    if slots == [] then 0
    else (if Hits(slots[0], Named(Name(key))) then 1 else 0) + Copies(slots[1..], key)
  }

  lemma {:induction false} CopiesUpdate(slots: Slots, s: nat, key: Bytes)
    requires s < |slots|
    ensures Hits(slots[s], Named(Name(key))) ==> Copies(slots[s := None], key) == Copies(slots, key) - 1
  {
    if s == 0 {
      assert slots[s := None][1..] == slots[1..];
    } else {
      assert slots[s := None][1..] == slots[1..][s - 1 := None];
      CopiesUpdate(slots[1..], s - 1, key);
    }
  }

  lemma {:induction false} NoCopies(slots: Slots, key: Bytes)
    requires forall s: nat :: s < |slots| ==> !Hits(slots[s], Named(Name(key)))
    ensures Copies(slots, key) == 0
  {
    if slots != [] {
      assert forall s: nat :: s < |slots[1..]| ==> slots[1..][s] == slots[s + 1];
      NoCopies(slots[1..], key);
    }
  }

  /** With k copies of a key present, exactly the first k of any number of removes succeed. */
  lemma {:induction false} RemovesDrain(slots: Slots, key: Bytes, times: nat, i: nat)
    requires ValidSlots(slots) && key != [] && i < times
    ensures Run(slots, seq(times, _ => Remove(key))).1[i] == Removed(i < Copies(slots, key))
    decreases times
  {
    var ops := seq(times, _ => Remove(key));
    assert ops[1..] == seq(times - 1, _ => Remove(key));
    var s := Search(slots, Home(key, |slots|), Named(Name(key)));
    if s.Some? {
      CopiesUpdate(slots, s.value, key);
    } else {
      NoCopies(slots, key);
    }
    if i > 0 { RemovesDrain(Step(slots, Remove(key)).0, key, times - 1, i - 1); }
  }

  // ---------------------------------------------------------------- runs without removal

  /** Every entry has a NUL-free key (`key_size == strlen(key)`), and no hole on its way from home. */
  ghost predicate NoHoles(slots: Slots) {
    forall s: nat :: 1 <= s < |slots| && slots[s].Some? ==> 0 !in slots[s].value.key && PathTaken(slots, s)
  }

  ghost predicate PathTaken(slots: Slots, s: nat)
    requires 1 <= s < |slots| && slots[s].Some?
  {
    var home := Home(slots[s].value.key, |slots|);
    forall i: nat :: i < Distance(home, s, |slots|) ==> slots[Walk(home, i, |slots|)].Some?
  }

  lemma AddLeavesNoHoles(slots: Slots, op: Op)
    requires ValidSlots(slots) && NoHoles(slots) && op.Add? && 0 !in op.key
    ensures NoHoles(Step(slots, op).0)
  {
    var (slots', reply) := Step(slots, op);
    if slots' != slots {
      var home := Home(op.key, |slots|);
      var moves := Probe(slots, home, 0, Free);
      var at := Walk(home, moves, |slots|);
      assert slots' == slots[at := Some(Entry(op.key, op.value))];
      assert Distance(home, at, |slots|) == moves;
      forall s: nat | 1 <= s < |slots'| && slots'[s].Some? ensures 0 !in slots'[s].value.key && PathTaken(slots', s) {
        if s != at { assert PathTaken(slots, s); }
      }
    }
  }

  lemma StoredHasPath(slots: Slots, key: Bytes, j: nat)
    requires ValidSlots(slots) && NoHoles(slots) && 0 !in key && j < |slots|
    ensures var home := Home(key, |slots|);
            j < |slots| - 1 && Hits(slots[Walk(home, j, |slots|)], Named(key)) ==>
              forall i: nat :: i < j ==> slots[Walk(home, i, |slots|)].Some?
  {
    var home := Home(key, |slots|);
    var s := Walk(home, j, |slots|);
    if j < |slots| - 1 && Hits(slots[s], Named(key)) {
      assert PathTaken(slots, s) && Distance(home, s, |slots|) == j;
    }
  }

  /** The textbook lookup that gives up at the first empty slot. */
  function EarlyFetch(slots: Slots, key: Bytes, i: nat): (r: Option<Bytes>)
    requires ValidSlots(slots) && key != [] && i < |slots|
    decreases |slots| - i
  {
    var at := Walk(Home(key, |slots|), i, |slots|);
    if i == |slots| - 1 || slots[at].None? then None
    else if Name(slots[at].value.key) == Name(key) then Some(slots[at].value.value)
    else EarlyFetch(slots, key, i + 1)
  }

  /** Without holes, stopping at the first empty slot finds what the full scan finds. */
  lemma {:induction false} EarlyStopAgrees(slots: Slots, key: Bytes, i: nat)
    requires ValidSlots(slots) && NoHoles(slots) && key != [] && 0 !in key && i < |slots|
    ensures var home := Home(key, |slots|);
            var j := Probe(slots, home, i, Named(Name(key)));
            EarlyFetch(slots, key, i) ==
            if j < |slots| - 1 then Some(slots[Walk(home, j, |slots|)].value.value) else None
    decreases |slots| - i
  {
    var home := Home(key, |slots|);
    var at := Walk(home, i, |slots|);
    if i < |slots| - 1 && !Hits(slots[at], Named(Name(key))) {
      if slots[at].None? {
        StoredHasPath(slots, key, Probe(slots, home, i, Named(Name(key))));
      } else {
        EarlyStopAgrees(slots, key, i + 1);
      }
    }
  }

  function Stored(slots: Slots, key: Bytes): Option<Bytes>
    requires ValidSlots(slots)
  {
    Step(slots, Fetch(key)).1.value
  }

  /** An add changes what is fetched only for its own key, and only if that key was absent. */
  lemma AddKeepsFirst(slots: Slots, op: Op, key: Bytes)
    requires ValidSlots(slots) && NoHoles(slots) && op.Add? && 0 !in op.key && 0 !in key && key != []
    ensures var (slots', reply) := Step(slots, op);
            Stored(slots', key) ==
            if Stored(slots, key).None? && op.key == key && reply.ok then Some(op.value) else Stored(slots, key)
  {
    var (slots', reply) := Step(slots, op);
    if reply.ok {
      var home, n := Home(op.key, |slots|), |slots|;
      var moves := Probe(slots, home, 0, Free);
      var at := Walk(home, moves, n);
      if op.key != key {
        ProbeIgnores(slots, Home(key, n), 0, Named(key), at, slots'[at]);
      } else {
        var j := Probe(slots, home, 0, Named(key));
        StoredHasPath(slots, key, j);
        if j < n - 1 {
          SearchIs(slots', home, Named(key), j);
        } else {
          SearchIs(slots', home, Named(key), moves);
        }
      }
    }
  }

  ghost predicate RemovalFree(ops: seq<Op>) {
    forall i :: 0 <= i < |ops| ==> !ops[i].Remove? && 0 !in ops[i].key
  }

  /** The value of the first add of `key` that the replies report as successful. */
  function FirstAdded(ops: seq<Op>, replies: seq<Reply>, key: Bytes): Option<Bytes>
    requires |ops| == |replies|
  {
    if ops == [] then None
    else if ops[0].Add? && ops[0].key == key && replies[0].Added? && replies[0].ok then Some(ops[0].value)
    else FirstAdded(ops[1..], replies[1..], key)
  }

  lemma {:induction false} FirstWins(slots: Slots, ops: seq<Op>, key: Bytes)
    requires ValidSlots(slots) && NoHoles(slots) && RemovalFree(ops) && key != [] && 0 !in key
    ensures var (end, replies) := Run(slots, ops);
            && NoHoles(end)
            && Stored(end, key) ==
               if Stored(slots, key).Some? then Stored(slots, key) else FirstAdded(ops, replies, key)
    decreases |ops|
  {
    if ops != [] {
      var (mid, reply) := Step(slots, ops[0]);
      if ops[0].Add? {
        AddLeavesNoHoles(slots, ops[0]);
        AddKeepsFirst(slots, ops[0], key);
      }
      FirstWins(mid, ops[1..], key);
      assert Run(slots, ops).1[1..] == Run(mid, ops[1..]).1;
    }
  }

  /**
   * A fresh table that is never removed from returns, for every key, the earliest value
   * successfully added, and an early-stopping search would return the same.
   */
  lemma TableIsFirstWins(numEntries: nat, ops: seq<Op>, key: Bytes)
    requires 1 <= numEntries && RemovalFree(ops) && key != [] && 0 !in key
    ensures var (end, replies) := Run(Empty(numEntries), ops);
            Stored(end, key) == FirstAdded(ops, replies, key) == EarlyFetch(end, key, 0)
  {
    FirstWins(Empty(numEntries), ops, key);
    EarlyStopAgrees(Run(Empty(numEntries), ops).0, key, 0);
  }

  lemma RunOne(slots: Slots, op: Op, ops: seq<Op>)
    requires ValidSlots(slots)
    ensures Run(slots, [op] + ops).0 == Run(Step(slots, op).0, ops).0
  {
    assert ([op] + ops)[1..] == ops;
  }

  lemma HomesCollide()
    ensures Home([1], 4) == 1 && Home([5], 4) == 1
  {
    assert [1][1..] == [] && [5][1..] == [];
    assert PolynomialSum([1]) == 1 && PolynomialSum([5]) == 5;
  }

  /** With a removal the early stop is wrong: the hole hides a later entry the full scan finds. */
  lemma EarlyStopNeedsNoRemoval()
    ensures var end := Run(Empty(2), [Add([1], [7], true), Add([5], [8], true), Remove([1])]).0;
            EarlyFetch(end, [5], 0) == None && Stored(end, [5]) == Some([8])
  {
    HomesCollide();
    var add1, add5, remove1 := Add([1], [7], true), Add([5], [8], true), Remove([1]);
    var e0, e1: Slots := Empty(2), [None, Some(Entry([1], [7])), None, None];
    var e2: Slots := [None, Some(Entry([1], [7])), Some(Entry([5], [8])), None];
    var e3: Slots := [None, None, Some(Entry([5], [8])), None];
    SearchIs(e0, 1, Free, 0);
    assert e0[1 := Some(Entry([1], [7]))] == e1;
    SearchIs(e1, 1, Free, 1);
    assert e1[2 := Some(Entry([5], [8]))] == e2;
    SearchIs(e2, 1, Named([1]), 0);
    assert e2[1 := None] == e3;
    SearchIs(e3, 1, Named([5]), 1);
    RunOne(e2, remove1, []);
    RunOne(e1, add5, [remove1]);
    RunOne(e0, add1, [add5, remove1]);
    assert [add1] + [add5, remove1] == [add1, add5, remove1];
    assert [add5] + [remove1] == [add5, remove1] && [remove1] + [] == [remove1];
  }
}
