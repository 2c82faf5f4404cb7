/**
 * The open-address hash table of hash_tools.c: linear probing over `2 * capacity` slots,
 * slot 0 never used, removal without tombstones, lookup by a scan of the whole cycle.
 */
module HashTools {
  import opened Wrappers
  import opened CStrings

  /** A signed C `char`. */
  type CChar = c: int | -128 <= c < 128

  /** `key_size` (or `value_size`) bytes; the caller keeps a NUL right after a key. */
  type Bytes = seq<CChar>

  const KEYGEN_SALT := 31

  datatype Entry = Entry(key: Bytes, value: Bytes)

  type Slots = seq<Option<Entry>>

  /** What `strcmp` compares of a key. */
  function Name(key: Bytes): (name: Bytes)
    ensures 0 !in key ==> name == key
  {
    CStr(key, 0)
  }

  // ---------------------------------------------------------------- hashing

  function Pow(b: nat, e: nat): nat {
    if e == 0 then 1 else b * Pow(b, e - 1)
  }

  /** The sum of `key[i] * 31^(|key| - 1 - i)` over the unbounded integers. */
  function PolynomialSum(key: Bytes): int {
    if key == [] then 0
    else key[0] * Pow(KEYGEN_SALT, |key| - 1) + PolynomialSum(key[1..])
  }

  lemma {:induction false} PowAdd(b: nat, d: nat, e: nat)
    ensures Pow(b, d + e) == Pow(b, d) * Pow(b, e)
  {
    if d > 0 {
      PowAdd(b, d - 1, e);
      Regroup(b, Pow(b, d - 1), Pow(b, e));
    }
  }

  lemma Regroup(a: int, b: int, c: int)
    ensures a * (b * c) == (a * b) * c
  {
  }

  lemma {:induction false} PolynomialConcat(xs: Bytes, ys: Bytes)
    ensures PolynomialSum(xs + ys) == PolynomialSum(xs) * Pow(KEYGEN_SALT, |ys|) + PolynomialSum(ys)
  {
    if xs == [] {
      assert xs + ys == ys;
    } else {
      var p, q := Pow(KEYGEN_SALT, |xs| - 1), Pow(KEYGEN_SALT, |ys|);
      assert (xs + ys)[1..] == xs[1..] + ys;
      PolynomialConcat(xs[1..], ys);
      PowAdd(KEYGEN_SALT, |xs| - 1, |ys|);
      DistributeRight(xs[0], p, PolynomialSum(xs[1..]), q);
    }
  }

  lemma DistributeRight(a: int, p: int, b: int, q: int)
    ensures (a * p + b) * q == a * (p * q) + b * q
  {
  }

  /** The sum by its last byte: this and the empty sum leave no other polynomial. */
  lemma PolynomialSnoc(key: Bytes, c: CChar)
    ensures PolynomialSum([]) == 0 && PolynomialSum(key + [c]) == 31 * PolynomialSum(key) + c
  {
    PolynomialConcat(key, [c]);
    assert [c][1..] == [];
    assert PolynomialSum([c]) == c * Pow(KEYGEN_SALT, 0) + PolynomialSum([]);
    assert Pow(KEYGEN_SALT, 1) == KEYGEN_SALT * Pow(KEYGEN_SALT, 0);
  }

  /** The hash of a key: its polynomial, wrapped to 64 bits once, at the end. */
  function Hash(key: Bytes): (h: nat)
    ensures h < WORD
  {
    PolynomialSum(key) % WORD
  }

  lemma WrapOnce(a: int, p: int, b: int)
    ensures (a * p + b) % WORD == ((a % WORD) * p + b % WORD) % WORD
  {
    var q := a / WORD;
    assert a == WORD * q + a % WORD;
    assert a * p == WORD * (q * p) + (a % WORD) * p by {
      assert (WORD * q + a % WORD) * p == WORD * q * p + (a % WORD) * p;
    }
    assert a * p + b == WORD * (q * p + b / WORD) + ((a % WORD) * p + b % WORD);
    WrapMultiple(q * p + b / WORD, (a % WORD) * p + b % WORD);
  }

  lemma WrapMultiple(k: int, x: int)
    ensures (WORD * k + x) % WORD == x % WORD
  {
  }

  /** Hashing a concatenation from the hashes of its parts, all modulo 2^64. */
  lemma HashConcat(xs: Bytes, ys: Bytes)
    ensures Hash(xs + ys) == (Hash(xs) * Pow(KEYGEN_SALT, |ys|) + Hash(ys)) % WORD
  {
    PolynomialConcat(xs, ys);
    WrapOnce(PolynomialSum(xs), Pow(KEYGEN_SALT, |ys|), PolynomialSum(ys));
  }

  lemma WrapEach(a: int, c: int)
    ensures ((a * KEYGEN_SALT) % WORD + c % WORD) % WORD == (a * KEYGEN_SALT + c % WORD) % WORD
  {
    var x := a * KEYGEN_SALT;
    WrapMultiple(x / WORD, x % WORD + c % WORD);
    assert x + c % WORD == WORD * (x / WORD) + (x % WORD + c % WORD);
  }

  /** One round of the loop: the multiplication and the addition each wrap, and the cast sign-extends. */
  lemma HashSnoc(key: Bytes, c: CChar)
    ensures Hash(key + [c]) == ((Hash(key) * KEYGEN_SALT) % WORD + c % WORD) % WORD
  {
    HashConcat(key, [c]);
    assert [c][1..] == [];
    assert PolynomialSum([c]) == c * Pow(KEYGEN_SALT, 0) + PolynomialSum([]);
    assert Pow(KEYGEN_SALT, 1) == KEYGEN_SALT * Pow(KEYGEN_SALT, 0);
    WrapEach(Hash(key), c);
  }

  /** The slot a key hashes to in a table of `n` slots; slot 0 is never used. */
  function Home(key: Bytes, n: nat): (home: nat)
    requires 2 <= n
    ensures 1 <= home < n
  {
    var r := Hash(key) % n;
    if r == 0 then 1 else r
  }

  method GenerateHashIndex(key: Bytes, n: nat) returns (index: Option<nat>)
    ensures index == if key == [] || n < 2 then None else Some(Home(key, n))
    ensures key != [] && n >= 2 ==>
              var slot := PolynomialSum(key) % 0x1_0000_0000_0000_0000 % n; index == Some(if slot == 0 then 1 else slot)
  {
    if |key| < 1 || n < 2 {
      return None;
    }
    var keygenValue := 0;
    for cursor := 0 to |key|
      invariant keygenValue == Hash(key[..cursor])
    {
      assert key[..cursor + 1] == key[..cursor] + [key[cursor]];
      HashSnoc(key[..cursor], key[cursor]);
      keygenValue := ((keygenValue * KEYGEN_SALT) % WORD + key[cursor] % WORD) % WORD;
    }
    assert key[..|key|] == key;
    var result := keygenValue % n;
    index := Some(if result == 0 then result + 1 else result);
  }

  // ---------------------------------------------------------------- probing

  /** The slot reached after `i` forward moves from `home`, wrapping from `n - 1` to 1. */
  function Walk(home: nat, i: nat, n: nat): (slot: nat)
    requires 1 <= home < n && i < n
    ensures 1 <= slot < n
  {
    if home + i < n then home + i else home + i - (n - 1)
  }

  /** Inverse of `Walk`: how many moves from `home` to `slot`. */
  function Distance(home: nat, slot: nat, n: nat): (i: nat)
    requires 1 <= home < n && 1 <= slot < n
    ensures i < n - 1 && Walk(home, i, n) == slot
    ensures forall j: nat :: j < n - 1 && Walk(home, j, n) == slot ==> j == i
  {
    if home <= slot then slot - home else slot + (n - 1) - home
  }

  datatype Want = Free | Named(name: Bytes)

  predicate Hits(slot: Option<Entry>, want: Want) {
    match want
    case Free => slot.None?
    case Named(name) => slot.Some? && Name(slot.value.key) == name
  }

  ghost predicate ValidSlots(slots: Slots) {
    2 <= |slots| && slots[0].None?
  }

  /** The number of moves from `home` to the first hit at or after move `i`; `|slots| - 1` if none. */
  function Probe(slots: Slots, home: nat, i: nat, want: Want): (j: nat)
    requires 1 <= home < |slots| && i < |slots|
    ensures i <= j < |slots|
    ensures forall k: nat :: i <= k < j ==> !Hits(slots[Walk(home, k, |slots|)], want)
    ensures j < |slots| - 1 ==> Hits(slots[Walk(home, j, |slots|)], want)
    decreases |slots| - i
  {
    if i == |slots| - 1 || Hits(slots[Walk(home, i, |slots|)], want) then i
    else Probe(slots, home, i + 1, want)
  }

  lemma NoneReached(slots: Slots, home: nat, want: Want)
    requires 1 <= home < |slots| && Probe(slots, home, 0, want) == |slots| - 1
    ensures forall s: nat :: 1 <= s < |slots| ==> !Hits(slots[s], want)
  {
    forall s: nat | 1 <= s < |slots| ensures !Hits(slots[s], want) {
      var d := Distance(home, s, |slots|);
      assert !Hits(slots[Walk(home, d, |slots|)], want);
    }
  }

  /** The slot a whole-cycle search from `home` selects. */
  function Search(slots: Slots, home: nat, want: Want): (r: Option<nat>)
    requires 1 <= home < |slots|
    ensures r.Some? ==> 1 <= r.value < |slots| && Hits(slots[r.value], want)
    ensures r.None? ==> forall s: nat :: 1 <= s < |slots| ==> !Hits(slots[s], want)
  {
    var j := Probe(slots, home, 0, want);
    if j < |slots| - 1 then Some(Walk(home, j, |slots|))
    else
      NoneReached(slots, home, want);
      None
  }

  /** `Search` returns the slot at move `j` exactly when that is the first hit. */
  lemma SearchIs(slots: Slots, home: nat, want: Want, j: nat)
    requires 1 <= home < |slots| && j < |slots| - 1
    requires Hits(slots[Walk(home, j, |slots|)], want)
    requires forall k: nat :: k < j ==> !Hits(slots[Walk(home, k, |slots|)], want)
    ensures Search(slots, home, want) == Some(Walk(home, j, |slots|))
  {
    var p := Probe(slots, home, 0, want);
    assert p == j;
  }

  // ---------------------------------------------------------------- one call, on slots

  datatype Op =
    | Add(key: Bytes, value: Bytes, memory: bool)  // memory: whether calloc succeeds
    | Remove(key: Bytes)
    | Fetch(key: Bytes)

  datatype Reply =
    | Added(ok: bool, index: Option<nat>)  // index: what the out-parameter was set to
    | Removed(ok: bool)
    | Fetched(value: Option<Bytes>)

  /** The slots after one call, and what the caller sees. */
  function Step(slots: Slots, op: Op): (r: (Slots, Reply))
    requires ValidSlots(slots)
    ensures ValidSlots(r.0) && |r.0| == |slots|
  {
    if op.key == [] then
      (slots, match op
              case Add(_, _, _) => Added(false, None)
              case Remove(_) => Removed(false)
              case Fetch(_) => Fetched(None))
    else
      var home := Home(op.key, |slots|);
      match op
      case Add(key, value, memory) =>
        if value == [] then (slots, Added(false, None))
        else
          (match Search(slots, home, Free)
           case None => (slots, Added(false, Some(home)))
           case Some(s) => (if memory then slots[s := Some(Entry(key, value))] else slots, Added(memory, Some(s))))
      case Remove(key) =>
        (match Search(slots, home, Named(Name(key)))
         case None => (slots, Removed(false))
         case Some(s) => (slots[s := None], Removed(true)))
      case Fetch(key) =>
        (match Search(slots, home, Named(Name(key)))
         case None => (slots, Fetched(None))
         case Some(s) => (slots, Fetched(Some(slots[s].value.value))))
  }

  /** Move `j` of the cycle from the key's home is the first to meet what is wanted. */
  ghost predicate FirstHit(slots: Slots, key: Bytes, want: Want, j: nat)
    requires 2 <= |slots| && j < |slots|
  {
    var home := Home(key, |slots|);
    && Hits(slots[Walk(home, j, |slots|)], want)
    && forall k: nat :: k < j ==> !Hits(slots[Walk(home, k, |slots|)], want)
  }

  /** The slot a call on `key` is about, if there is one: reached by the fewest moves from home. */
  ghost predicate Selects(slots: Slots, key: Bytes, want: Want, slot: nat) {
    2 <= |slots| &&
    exists j: nat ::
      j < |slots| - 1 && FirstHit(slots, key, want, j) && slot == Walk(Home(key, |slots|), j, |slots|)
  }

  lemma SearchSelects(slots: Slots, key: Bytes, want: Want)
    requires 2 <= |slots|
    ensures var found := Search(slots, Home(key, |slots|), want);
            && (found.Some? ==> Selects(slots, key, want, found.value))
            && (found.None? ==> forall s: nat :: 1 <= s < |slots| ==> !Hits(slots[s], want))
  {
    var home := Home(key, |slots|);
    var j := Probe(slots, home, 0, want);
    if j < |slots| - 1 { assert FirstHit(slots, key, want, j); }
  }

  /** The table has no entry whose key `strcmp` equates with `key`. */
  ghost predicate Absent(slots: Slots, key: Bytes) {
    forall s: nat :: 1 <= s < |slots| && slots[s].Some? ==> CStr(slots[s].value.key, 0) != CStr(key, 0)
  }

  lemma MissIsAbsent(slots: Slots, key: Bytes)
    ensures Absent(slots, key) <==> forall s: nat :: 1 <= s < |slots| ==> !Hits(slots[s], Named(Name(key)))
  {
  }

  // ---------------------------------------------------------------- the table

  class HashTable {
    const tableSize: nat
    const table: array<Option<Entry>>

    ghost predicate Valid()
      reads table
    {
      1 <= tableSize && table.Length == 2 * tableSize && ValidSlots(table[..])
    }

    constructor (numEntries: nat)
      requires 1 <= numEntries
      ensures Valid() && fresh(table) && tableSize == numEntries
      ensures table[..] == seq(2 * numEntries, _ => None)
    {
      tableSize := numEntries;
      table := new Option<Entry>[2 * numEntries](_ => None);
    }

    method Add(key: Bytes, value: Bytes, memory: bool) returns (reply: Reply)
      requires Valid()
      modifies table
      ensures Valid()
      ensures (table[..], reply) == Step(old(table[..]), Op.Add(key, value, memory))
      // and in full: refused arguments, a full table, failed memory, success
      ensures key == [] || value == [] ==> reply == Added(false, None) && table[..] == old(table[..])
      ensures key != [] && value != [] && (forall s :: 1 <= s < table.Length ==> old(table[s]).Some?) ==>
                reply == Added(false, Some(Home(key, table.Length))) && table[..] == old(table[..])
      ensures key != [] && value != [] && !(forall s :: 1 <= s < table.Length ==> old(table[s]).Some?) ==>
                && reply.index.Some? && Selects(old(table[..]), key, Free, reply.index.value) && reply.ok == memory
                && 1 <= reply.index.value < table.Length && old(table[reply.index.value]).None?
                && table[..] == if memory then old(table[..])[reply.index.value := Some(Entry(key, value))]
                                else old(table[..])
    {
      SearchSelects(table[..], key, Free);
      if |key| < 1 || |value| < 1 {
        return Added(false, None);
      }
      var n := tableSize * 2;
      var generated := GenerateHashIndex(key, n);
      var home := generated.value;
      var index := home;
      ghost var moves := 0;
      if table[home].Some? {
        var probeCounter, stepCounter := home, 0;
        while table[probeCounter].Some?
          invariant moves < n && probeCounter == Walk(home, moves, n)
          invariant stepCounter == if home + moves < n then moves else moves + 1
          invariant forall k: nat :: k < moves ==> table[Walk(home, k, n)].Some?
          decreases n - moves
        {
          stepCounter := stepCounter + 1;
          if stepCounter >= n {
            assert moves >= n - 2;
            assert Search(table[..], home, Free) == None;
            return Added(false, Some(index));
          }
          probeCounter := probeCounter + 1;
          if probeCounter >= n {
            probeCounter := 1;
            stepCounter := stepCounter + 1;
          }
          moves := moves + 1;
        }
        index := probeCounter;
      }
      SearchIs(table[..], home, Free, moves);
      if !memory {
        return Added(false, Some(index));
      }
      table[index] := Some(Entry(key, value));
      reply := Added(true, Some(index));
    }

    /** Scans home+1, home+2, .., n-1, 1, .., home: every usable slot once, home last. */
    method SeekEntry(key: Bytes, home: nat) returns (index: Option<nat>, ghost moves: nat)
      requires Valid() && 1 <= home < table.Length
      ensures 1 <= moves <= table.Length - 1
      ensures forall k: nat :: 1 <= k < moves ==> !Hits(table[Walk(home, k, table.Length)], Named(Name(key)))
      ensures index.None? ==> moves == table.Length - 1 && !Hits(table[home], Named(Name(key)))
      ensures index.Some? ==>
                index.value == Walk(home, moves, table.Length) && Hits(table[index.value], Named(Name(key)))
    {
      var n := table.Length;
      var probeCounter, stepCounter := home, 0;
      moves := 0;
      while stepCounter < n
        invariant moves < n && probeCounter == Walk(home, moves, n)
        invariant stepCounter == if home + moves < n then moves else moves + 1
        invariant forall k: nat :: 1 <= k <= moves ==> !Hits(table[Walk(home, k, n)], Named(Name(key)))
        decreases n - moves
      {
        probeCounter := probeCounter + 1;
        if probeCounter >= n {
          probeCounter := 1;
          stepCounter := stepCounter + 1;
        }
        moves := moves + 1;
        if table[probeCounter].Some? && Name(table[probeCounter].value.key) == Name(key) {
          return Some(probeCounter), moves;
        }
        stepCounter := stepCounter + 1;
      }
      assert Walk(home, n - 1, n) == home;
      index := None;
    }

    /** The part `hash_remove_entry` and `hash_fetch_entry` share: the home slot first, then the seek. */
    method Locate(key: Bytes) returns (index: Option<nat>)
      requires Valid() && key != []
      ensures index == Search(table[..], Home(key, table.Length), Named(Name(key)))
    {
      var n := tableSize * 2;
      var generated := GenerateHashIndex(key, n);
      var home := generated.value;
      if table[home].None? || Name(table[home].value.key) != Name(key) {
        ghost var moves;
        index, moves := SeekEntry(key, home);
        assert Walk(home, 0, n) == home == Walk(home, n - 1, n);
        if index.Some? {
          SearchIs(table[..], home, Named(Name(key)), moves);
        } else {
          assert forall s: nat :: 1 <= s < n ==> Walk(home, Distance(home, s, n), n) == s;
        }
      } else {
        SearchIs(table[..], home, Named(Name(key)), 0);
        index := Some(home);
      }
    }

    method Remove(key: Bytes) returns (reply: Reply)
      requires Valid()
      modifies table
      ensures Valid()
      ensures (table[..], reply) == Step(old(table[..]), Op.Remove(key))
      ensures key == [] || Absent(old(table[..]), key) ==> reply == Removed(false) && table[..] == old(table[..])
      ensures key != [] && !Absent(old(table[..]), key) ==>
                && reply == Removed(true)
                && exists s: nat :: Selects(old(table[..]), key, Named(CStr(key, 0)), s) && s < table.Length &&
                                    table[..] == old(table[..])[s := None]
    {
      SearchSelects(table[..], key, Named(Name(key)));
      MissIsAbsent(table[..], key);
      if |key| < 1 {
        return Removed(false);
      }
      var index := Locate(key);
      if index.None? {
        return Removed(false);
      }
      table[index.value] := None;
      reply := Removed(true);
    }

    method Fetch(key: Bytes) returns (reply: Reply)
      requires Valid()
      ensures (table[..], reply) == Step(table[..], Op.Fetch(key))
      ensures key == [] || Absent(table[..], key) ==> reply == Fetched(None)
      ensures key != [] && !Absent(table[..], key) ==>
                exists s: nat :: Selects(table[..], key, Named(CStr(key, 0)), s) && s < table.Length &&
                                 table[s].Some? && reply == Fetched(Some(table[s].value.value))
    {
      SearchSelects(table[..], key, Named(Name(key)));
      MissIsAbsent(table[..], key);
      if |key| < 1 {
        return Fetched(None);
      }
      var index := Locate(key);
      if index.None? {
        return Fetched(None);
      }
      reply := Fetched(Some(table[index.value].value.value));
    }
  }

  /** `*table` is `table` before and `result` after; an allocated table is refused and left alone. */
  method HashAllocate(numEntries: nat, table: HashTable?, memory: bool) returns (ok: bool, result: HashTable?)
    ensures ok <==> table == null && 2 <= numEntries && memory
    ensures !ok ==> result == table
    ensures ok ==> result != null && fresh(result) && fresh(result.table)
    ensures ok ==> result.Valid() && result.tableSize == numEntries
    ensures ok ==> result.table[..] == seq(2 * numEntries, _ => None)
  {
    if table != null || numEntries < 2 || !memory {
      return false, table;
    }
    ok := true;
    result := new HashTable(numEntries);
  }
}
