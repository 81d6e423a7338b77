/**
 The tile cache: least recently used first, a hard ceiling on bytes.

 A cache is a list of keys, oldest use first, and a tile for each. What it holds after any history is read
 off from the keys used and when they were last used; the class below is the program's map, order list
 and byte counter, proved to move through exactly these states.
 */
module TileCache {
  import opened Prelude
  import opened Tiles

  type Weight = TileKey -> nat

  datatype Cache = Cache(tiles: map<TileKey, Tile>, order: seq<TileKey>, budget: nat)

  function Empty(budget: nat): Cache {
    Cache(map[], [], budget)
  }

  function Sizes(tiles: map<TileKey, Tile>): Weight {
    (key: TileKey) => if key in tiles then tiles[key].SizeBytes() else 0
  }

  function Total(weight: Weight, keys: seq<TileKey>): nat {
    if keys == [] then 0 else weight(keys[0]) + Total(weight, keys[1..])
  }

  function Without(keys: seq<TileKey>, key: TileKey): (rest: seq<TileKey>)
    ensures |rest| <= |keys|
  {
    if keys == [] then []
    else if keys[0] == key then Without(keys[1..], key)
    else [keys[0]] + Without(keys[1..], key)
  }

  lemma {:induction false} WithoutMembers(keys: seq<TileKey>, key: TileKey)
    ensures forall k :: k in Without(keys, key) <==> k in keys && k != key
  {
    if keys != [] {
      WithoutMembers(keys[1..], key);
      assert keys == [keys[0]] + keys[1..];
    }
  }

  /** What is left after dropping the shortest beginning that brings the total within `room`. */
  function Fit(weight: Weight, keys: seq<TileKey>, room: nat): seq<TileKey> {
    if Total(weight, keys) <= room then keys else Fit(weight, keys[1..], room)
  }

  // --------------------------------------------------------------- operations

  function Got(cache: Cache, key: TileKey): (Cache, Option<Tile>) {
    if key in cache.tiles then
      (cache.(order := Without(cache.order, key) + [key]), Some(cache.tiles[key]))
    else
      (cache, None)
  }

  function Inserted(cache: Cache, key: TileKey, tile: Tile): (Cache, bool) {
    if tile.SizeBytes() > cache.budget then
      (cache, false)
    else
      var kept := Fit(Sizes(cache.tiles), Without(cache.order, key), cache.budget - tile.SizeBytes());
      var tiles := (map k | k in cache.tiles && k in kept :: cache.tiles[k])[key := tile];
      (Cache(tiles, kept + [key], cache.budget), true)
  }

  ghost predicate Distinct(keys: seq<TileKey>) {
    forall i, j | 0 <= i < j < |keys| :: keys[i] != keys[j]
  }

  /** The order lists the cached keys, each once, and their bytes are within the budget. */
  ghost predicate Sound(cache: Cache) {
    && Distinct(cache.order)
    && (forall key :: key in cache.order <==> key in cache.tiles)
    && Total(Sizes(cache.tiles), cache.order) <= cache.budget
  }

  // ------------------------------------------------------------- lists of keys

  ghost predicate IsSuffix(some: seq<TileKey>, all: seq<TileKey>) {
    |some| <= |all| && all[|all| - |some|..] == some
  }

  lemma {:induction false} TotalOfSum(weight: Weight, left: seq<TileKey>, right: seq<TileKey>)
    ensures Total(weight, left + right) == Total(weight, left) + Total(weight, right)
  {
    if left == [] {
      assert left + right == right;
    } else {
      assert (left + right)[1..] == left[1..] + right;
      TotalOfSum(weight, left[1..], right);
    }
  }

  lemma TotalOfOne(weight: Weight, key: TileKey)
    ensures Total(weight, [key]) == weight(key)
  {
  }

  lemma {:induction false} WithoutOfSum(left: seq<TileKey>, right: seq<TileKey>, key: TileKey)
    ensures Without(left + right, key) == Without(left, key) + Without(right, key)
  {
    if left == [] {
      assert left + right == right;
    } else {
      assert (left + right)[1..] == left[1..] + right;
      WithoutOfSum(left[1..], right, key);
    }
  }

  lemma {:induction false} WithoutAbsent(keys: seq<TileKey>, key: TileKey)
    requires key !in keys
    ensures Without(keys, key) == keys
  {
    if keys != [] {
      WithoutAbsent(keys[1..], key);
    }
  }

  lemma {:induction false} WithoutDistinct(keys: seq<TileKey>, key: TileKey)
    requires Distinct(keys)
    ensures Distinct(Without(keys, key)) && Distinct(Without(keys, key) + [key])
  {
    WithoutMembers(keys, key);
    if keys != [] {
      WithoutDistinct(keys[1..], key);
      WithoutMembers(keys[1..], key);
      assert keys[0] !in keys[1..];
      var rest := Without(keys[1..], key);
      forall i | 0 <= i < |rest|
        ensures rest[i] != keys[0]
      {
        assert rest[i] in rest;
      }
    }
    var all := Without(keys, key);
    forall i | 0 <= i < |all|
      ensures all[i] != key
    {
      assert all[i] in all;
    }
  }

  lemma {:induction false} WithoutTotal(weight: Weight, keys: seq<TileKey>, key: TileKey)
    requires Distinct(keys)
    ensures Total(weight, keys) == Total(weight, Without(keys, key)) + if key in keys then weight(key) else 0
  {
    if keys != [] {
      WithoutTotal(weight, keys[1..], key);
      assert keys == [keys[0]] + keys[1..];
      if keys[0] == key {
        assert key !in keys[1..];
      } else {
        assert Without(keys, key)[1..] == Without(keys[1..], key);
      }
    }
  }

  lemma {:induction false} TotalAgrees(weight: Weight, weight': Weight, keys: seq<TileKey>)
    requires forall key | key in keys :: weight(key) == weight'(key)
    ensures Total(weight, keys) == Total(weight', keys)
  {
    if keys != [] {
      TotalAgrees(weight, weight', keys[1..]);
    }
  }

  /** `kept` is within the room, and with the key before it would not be. */
  ghost predicate JustFits(weight: Weight, older: seq<TileKey>, kept: seq<TileKey>, room: nat) {
    && Total(weight, kept) <= room
    && (older != [] ==> weight(older[|older| - 1]) + Total(weight, kept) > room)
  }

  /** `Fit` keeps an end of the list that just fits. */
  lemma {:induction false} FitSplits(weight: Weight, keys: seq<TileKey>, room: nat) returns (older: seq<TileKey>)
    ensures keys == older + Fit(weight, keys, room)
    ensures JustFits(weight, older, Fit(weight, keys, room), room)
  {
    if Total(weight, keys) <= room {
      older := [];
    } else {
      older := FitSplits(weight, keys[1..], room);
      older := [keys[0]] + older;
    }
  }

  /** And there is only one end that just fits. */
  lemma {:induction false} SplitIsFit(weight: Weight, older: seq<TileKey>, kept: seq<TileKey>, room: nat)
    requires JustFits(weight, older, kept, room)
    ensures Fit(weight, older + kept, room) == kept
  {
    if older == [] {
      assert older + kept == kept;
    } else {
      var front, last := older[..|older| - 1], older[|older| - 1];
      assert older + kept == front + ([last] + kept);
      assert ([last] + kept)[1..] == kept;
      TotalOfSum(weight, front, [last] + kept);
      assert (older + kept)[1..] == older[1..] + kept;
      SplitIsFit(weight, older[1..], kept, room);
    }
  }

  lemma SuffixKeepsOut(some: seq<TileKey>, all: seq<TileKey>, key: TileKey)
    requires IsSuffix(some, all)
    ensures IsSuffix(Without(some, key), Without(all, key))
    ensures IsSuffix(Without(some, key) + [key], Without(all, key) + [key])
  {
  }

  // ------------------------------------------------------- what every step keeps

  lemma GotIsSound(cache: Cache, key: TileKey)
    requires Sound(cache)
    ensures Sound(Got(cache, key).0)
  {
    hide Without, Total;
    if key in cache.tiles {
      TotalOfOne(Sizes(cache.tiles), key);
      WithoutMembers(cache.order, key);
      var weight := Sizes(cache.tiles);
      WithoutDistinct(cache.order, key);
      WithoutTotal(weight, cache.order, key);
      TotalOfSum(weight, Without(cache.order, key), [key]);
    }
  }

  /**
   Insert evicts the shortest run of oldest keys that makes room, and touches no other entry:
   what stays is the end of the order, with one more key it would no longer fit.
   */
  lemma InsertedIsSound(cache: Cache, key: TileKey, tile: Tile)
    requires Sound(cache)
    ensures var (cache', accepted) := Inserted(cache, key, tile);
            && Sound(cache')
            && (accepted <==> tile.SizeBytes() <= cache.budget)
            && (!accepted ==> cache' == cache)
            && (accepted ==>
                  && cache'.order != []
                  && cache'.order[|cache'.order| - 1] == key && cache'.tiles[key] == tile
                  && KeepsLongest(cache, key, tile.SizeBytes(), cache'.order[..|cache'.order| - 1])
                  && (forall k | k in cache'.order && k != key ::
                        k in cache.tiles && cache'.tiles[k] == cache.tiles[k]))
  {
    hide Sound, KeepsLongest, Without, Fit;
    if tile.SizeBytes() <= cache.budget {
      InsertKeepsEnd(cache, key, tile);
      assert Inserted(cache, key, tile).0.tiles[key] == tile;
    }
  }

  ghost predicate KeepsLongest(cache: Cache, key: TileKey, size: nat, kept: seq<TileKey>) {
    var rest := Without(cache.order, key);
    && IsSuffix(kept, rest)
    && size <= cache.budget
    && JustFits(Sizes(cache.tiles), rest[..|rest| - |kept|], kept, cache.budget - size)
  }

  lemma InsertKeepsEnd(cache: Cache, key: TileKey, tile: Tile)
    requires Sound(cache) && tile.SizeBytes() <= cache.budget
    ensures var cache' := Inserted(cache, key, tile).0;
            var kept := cache'.order[..|cache'.order| - 1];
            && Sound(cache')
            && cache'.order == kept + [key]
            && KeepsLongest(cache, key, tile.SizeBytes(), kept)
            && (forall k | k in kept :: k in cache.tiles && k in cache'.tiles && cache'.tiles[k] == cache.tiles[k])
  {
    hide Without, Total, Fit, Distinct, Sizes;
    var rest := Without(cache.order, key);
    var room := cache.budget - tile.SizeBytes();
    var kept := Fit(Sizes(cache.tiles), rest, room);
    var cache' := Inserted(cache, key, tile).0;
    assert cache'.order == kept + [key] && cache'.order[..|cache'.order| - 1] == kept;
    var older := FitSplits(Sizes(cache.tiles), rest, room);
    assert rest[..|rest| - |kept|] == older && rest[|rest| - |kept|..] == kept;
    WithoutDistinct(cache.order, key);
    WithoutMembers(cache.order, key);
    SuffixIsDistinct(kept, rest, key);
    KeptTiles(cache.tiles, cache'.tiles, kept, key, tile);
  }

  /** Bytes cached after keeping some entries and adding one. */
  lemma KeptTiles(tiles: map<TileKey, Tile>, tiles': map<TileKey, Tile>, kept: seq<TileKey>, key: TileKey, tile: Tile)
    requires forall k | k in kept :: k in tiles && k != key
    requires tiles' == (map k | k in tiles && k in kept :: tiles[k])[key := tile]
    ensures forall k | k in kept :: k in tiles' && tiles'[k] == tiles[k]
    ensures forall k :: k in tiles' <==> k in kept + [key]
    ensures Total(Sizes(tiles'), kept + [key]) == Total(Sizes(tiles), kept) + tile.SizeBytes()
  {
    hide Total;
    TotalAgrees(Sizes(tiles), Sizes(tiles'), kept);
    TotalOfSum(Sizes(tiles'), kept, [key]);
    TotalOfOne(Sizes(tiles'), key);
  }

  lemma SuffixIsDistinct(kept: seq<TileKey>, rest: seq<TileKey>, key: TileKey)
    requires IsSuffix(kept, rest) && Distinct(rest) && key !in rest
    ensures Distinct(kept + [key]) && forall k | k in kept :: k in rest
  {
  }

  // ----------------------------------------------------------------- histories

  datatype Op = Get(key: TileKey) | Insert(key: TileKey, tile: Tile) | Clear

  function Step(cache: Cache, op: Op): Cache {
    match op
    case Get(key) => Got(cache, key).0
    case Insert(key, tile) => Inserted(cache, key, tile).0
    case Clear => Empty(cache.budget)
  }

  function Run(budget: nat, ops: seq<Op>): Cache {
    if ops == [] then Empty(budget) else Step(Run(budget, ops[..|ops| - 1]), ops[|ops| - 1])
  }

  /** A use is a hit or an accepted insert. */
  predicate Uses(cache: Cache, op: Op) {
    match op
    case Get(key) => key in cache.tiles
    case Insert(_, tile) => tile.SizeBytes() <= cache.budget
    case Clear => false
  }

  /** The keys used since the last clear, in order of use, with repetitions. */
  function UseLog(budget: nat, ops: seq<Op>): seq<TileKey> {
    if ops == [] then []
    else
      var last := ops[|ops| - 1];
      var before := UseLog(budget, ops[..|ops| - 1]);
      if last.Clear? then []
      else if Uses(Run(budget, ops[..|ops| - 1]), last) then before + [last.key]
      else before
  }

  /** The keys of a log, each once, by last use. */
  function ByLastUse(log: seq<TileKey>): seq<TileKey> {
    if log == [] then [] else Without(ByLastUse(log[..|log| - 1]), log[|log| - 1]) + [log[|log| - 1]]
  }

  function LastUse(log: seq<TileKey>, key: TileKey): (i: nat)
    requires key in log
    ensures i < |log| && log[i] == key && key !in log[i + 1..]
  {
    if log[|log| - 1] == key then |log| - 1
    else
      assert log == log[..|log| - 1] + [log[|log| - 1]];
      var i := LastUse(log[..|log| - 1], key);
      assert log[i + 1..] == log[..|log| - 1][i + 1..] + [log[|log| - 1]];
      i
  }

  ghost predicate SortedByLastUse(keys: seq<TileKey>, log: seq<TileKey>) {
    && (forall i | 0 <= i < |keys| :: keys[i] in log)
    && (forall i, j | 0 <= i < j < |keys| :: LastUse(log, keys[i]) < LastUse(log, keys[j]))
  }

  /** That list is what its name says: the keys of the log, without repetition, sorted by last use. */
  lemma {:induction false} ByLastUseIsSorted(log: seq<TileKey>)
    ensures forall key :: key in ByLastUse(log) <==> key in log
    ensures Distinct(ByLastUse(log))
    ensures SortedByLastUse(ByLastUse(log), log)
  {
    hide Without, Distinct, SortedByLastUse, LastUse;
    if log == [] {
      NothingIsSorted();
    } else {
      var before, last := log[..|log| - 1], log[|log| - 1];
      assert log == before + [last];
      ByLastUseIsSorted(before);
      WithoutDistinct(ByLastUse(before), last);
      WithoutMembers(ByLastUse(before), last);
      UseKeepsSorted(ByLastUse(before), before, last);
    }
  }

  lemma NothingIsSorted()
    ensures Distinct([]) && SortedByLastUse([], [])
  {
  }

  lemma LastUseAfter(log: seq<TileKey>, last: TileKey, key: TileKey)
    requires key == last || key in log
    ensures LastUse(log + [last], key) == if key == last then |log| else LastUse(log, key)
  {
  }

  lemma UseKeepsSorted(keys: seq<TileKey>, log: seq<TileKey>, last: TileKey)
    requires SortedByLastUse(keys, log)
    ensures SortedByLastUse(Without(keys, last) + [last], log + [last])
  {
    hide Without, LastUse;
    var older := Without(keys, last);
    var keys' := older + [last];
    WithoutMembers(keys, last);
    forall i | 0 <= i < |keys'|
      ensures keys'[i] in log + [last]
      ensures i < |older| ==> keys'[i] in log && LastUse(log + [last], keys'[i]) == LastUse(log, keys'[i]) < |log|
      ensures i == |older| ==> LastUse(log + [last], keys'[i]) == |log|
    {
      if i < |older| {
        assert older[i] in older;
        LastUseAfter(log, last, older[i]);
      } else {
        LastUseAfter(log, last, last);
      }
    }
    forall i, j | 0 <= i < j < |keys'|
      ensures LastUse(log + [last], keys'[i]) < LastUse(log + [last], keys'[j])
    {
      if j < |older| {
        var i', j' := WithoutKeepsOrder(keys, last, i, j);
      }
    }
  }

  lemma {:induction false} WithoutKeepsOrder(keys: seq<TileKey>, key: TileKey, i: nat, j: nat)
    returns (i': nat, j': nat)
    requires i < j < |Without(keys, key)|
    ensures i' < j' < |keys| && keys[i'] == Without(keys, key)[i] && keys[j'] == Without(keys, key)[j]
  {
    if keys[0] == key {
      i', j' := WithoutKeepsOrder(keys[1..], key, i, j);
      i', j' := i' + 1, j' + 1;
    } else if i == 0 {
      j' := FindInRest(keys[1..], key, j - 1);
      i', j' := 0, j' + 1;
    } else {
      i', j' := WithoutKeepsOrder(keys[1..], key, i - 1, j - 1);
      i', j' := i' + 1, j' + 1;
    }
  }

  lemma FindInRest(keys: seq<TileKey>, key: TileKey, j: nat) returns (j': nat)
    requires j < |Without(keys, key)|
    ensures j' < |keys| && keys[j'] == Without(keys, key)[j]
  {
    assert Without(keys, key)[j] in Without(keys, key);
    WithoutMembers(keys, key);
    j' :| 0 <= j' < |keys| && keys[j'] == Without(keys, key)[j];
  }

  /** Any history: the cache is sound, and its keys are the most recently used ones, oldest first. */
  lemma {:induction false} CachedKeysAreMostRecent(budget: nat, ops: seq<Op>)
    ensures Sound(Run(budget, ops)) && Run(budget, ops).budget == budget
    ensures IsSuffix(Run(budget, ops).order, ByLastUse(UseLog(budget, ops)))
  {
    hide Without, Fit, Sound, Total, IsSuffix, Inserted, Got;
    if ops == [] {
      EmptyIsSound(budget);
    } else {
      var before, last := ops[..|ops| - 1], ops[|ops| - 1];
      CachedKeysAreMostRecent(budget, before);
      StepKeepsMostRecent(Run(budget, before), UseLog(budget, before), last);
    }
  }

  lemma EmptyIsSound(budget: nat)
    ensures Sound(Empty(budget)) && IsSuffix([], [])
  {
  }

  lemma StepKeepsMostRecent(cache: Cache, log: seq<TileKey>, op: Op)
    requires Sound(cache) && IsSuffix(cache.order, ByLastUse(log))
    ensures Sound(Step(cache, op)) && Step(cache, op).budget == cache.budget
    ensures IsSuffix(Step(cache, op).order,
                     ByLastUse(if op.Clear? then [] else if Uses(cache, op) then log + [op.key] else log))
  {
    hide Without, Fit, Total, Sound, IsSuffix, ByLastUse;
    var recent := ByLastUse(log);
    if !op.Clear? {
      UseMovesToEnd(log, op.key);
    }
    match op
    case Get(key) =>
      GotIsSound(cache, key);
      SuffixKeepsOut(cache.order, recent, key);
    case Insert(key, tile) =>
      InsertedIsSound(cache, key, tile);
      if tile.SizeBytes() <= cache.budget {
        var rest := Without(cache.order, key);
        var kept := Fit(Sizes(cache.tiles), rest, cache.budget - tile.SizeBytes());
        SuffixKeepsOut(cache.order, recent, key);
        InsertKeepsEnd(cache, key, tile);
        assert (kept + [key])[..|kept|] == kept;
        SuffixOfSuffix(kept, rest, Without(recent, key), key);
      }
    case Clear =>
      EmptyIsSound(cache.budget);
      NoUseNoKeys();
  }

  lemma UseMovesToEnd(log: seq<TileKey>, key: TileKey)
    ensures ByLastUse(log + [key]) == Without(ByLastUse(log), key) + [key]
  {
  }

  lemma NoUseNoKeys()
    ensures ByLastUse([]) == []
  {
  }

  lemma SuffixOfSuffix(some: seq<TileKey>, more: seq<TileKey>, all: seq<TileKey>, key: TileKey)
    requires IsSuffix(some, more) && IsSuffix(more, all)
    ensures IsSuffix(some, all) && IsSuffix(some + [key], all + [key])
  {
  }

  // ------------------------------------------------------------- demand traffic

  /** The session's traffic: look up, and on a miss insert the one tile that key has. */
  function Access(cache: Cache, tileOf: TileKey -> Tile, key: TileKey): Cache {
    if key in cache.tiles then Got(cache, key).0 else Inserted(cache, key, tileOf(key)).0
  }

  function AccessAll(budget: nat, tileOf: TileKey -> Tile, keys: seq<TileKey>): Cache {
    if keys == [] then Empty(budget)
    else Access(AccessAll(budget, tileOf, keys[..|keys| - 1]), tileOf, keys[|keys| - 1])
  }

  function Bytes(tileOf: TileKey -> Tile): Weight {
    (key: TileKey) => tileOf(key).SizeBytes()
  }

  lemma FitAfterHit(weight: Weight, recent: seq<TileKey>, room: nat, key: TileKey)
    requires Distinct(recent) && key in Fit(weight, recent, room)
    ensures Fit(weight, Without(recent, key) + [key], room) == Without(Fit(weight, recent, room), key) + [key]
  {
    hide Without, Total, Fit;
    var kept := Fit(weight, recent, room);
    var older := FitSplits(weight, recent, room);
    KeptIsNotOlder(older, kept, key);
    WithoutOfSum(older, kept, key);
    WithoutAbsent(older, key);
    WithoutTotal(weight, kept, key);
    TotalOfSum(weight, Without(kept, key), [key]);
    TotalOfOne(weight, key);
    SplitIsFit(weight, older, Without(kept, key) + [key], room);
    assert older + (Without(kept, key) + [key]) == older + Without(kept, key) + [key];
  }

  lemma KeptIsNotOlder(older: seq<TileKey>, kept: seq<TileKey>, key: TileKey)
    requires Distinct(older + kept) && key in kept
    ensures key !in older && Distinct(kept)
  {
    var j :| 0 <= j < |kept| && kept[j] == key;
    assert (older + kept)[|older| + j] == key;
    forall i | 0 <= i < |older|
      ensures older[i] != key
    {
      assert (older + kept)[i] == older[i];
    }
    forall i, k | 0 <= i < k < |kept|
      ensures kept[i] != kept[k]
    {
      assert (older + kept)[|older| + i] == kept[i] && (older + kept)[|older| + k] == kept[k];
    }
  }

  lemma FitAfterMiss(weight: Weight, recent: seq<TileKey>, room: nat, key: TileKey)
    requires key !in Fit(weight, recent, room) && weight(key) <= room
    ensures Fit(weight, Without(recent, key) + [key], room) ==
            Fit(weight, Fit(weight, recent, room), room - weight(key)) + [key]
  {
    hide Without, Total, Fit;
    var kept := Fit(weight, recent, room);
    var older := FitSplits(weight, recent, room);
    WithoutOfSum(older, kept, key);
    WithoutAbsent(kept, key);
    var kept' := Fit(weight, kept, room - weight(key));
    var evicted := FitSplits(weight, kept, room - weight(key));
    var older' := Without(older, key) + evicted;
    TotalOfSum(weight, kept', [key]);
    TotalOfOne(weight, key);
    if evicted == [] {
      assert kept == kept';
      if older == [] {
        WithoutNothing(key);
      } else if older[|older| - 1] != key {
        WithoutLast(older, key);
      }
    }
    SplitIsFit(weight, older', kept' + [key], room);
    assert older' + (kept' + [key]) == Without(older, key) + (evicted + kept') + [key];
  }

  lemma WithoutNothing(key: TileKey)
    ensures Without([], key) == []
  {
  }

  lemma WithoutLast(keys: seq<TileKey>, key: TileKey)
    requires keys != [] && keys[|keys| - 1] != key
    ensures Without(keys, key) != [] && Without(keys, key)[|Without(keys, key)| - 1] == keys[|keys| - 1]
  {
  }

  /** Under demand traffic the cache is, at every moment, the longest run of most recently used keys that fits. */
  lemma {:induction false} DemandCacheIsLongestFit(budget: nat, tileOf: TileKey -> Tile, keys: seq<TileKey>)
    requires forall key | key in keys :: tileOf(key).SizeBytes() <= budget
    ensures var cache := AccessAll(budget, tileOf, keys);
            cache.budget == budget && Reflects(cache, tileOf, keys)
  {
    hide Without, Total, Fit, Sound, Access, ByLastUse;
    if keys == [] {
      EmptyIsSound(budget);
      NoUseNoKeys();
      SplitIsFitOfNothing(Bytes(tileOf), budget);
    } else {
      var before, key := keys[..|keys| - 1], keys[|keys| - 1];
      assert keys == before + [key];
      DemandCacheIsLongestFit(budget, tileOf, before);
      AccessKeepsLongestFit(AccessAll(budget, tileOf, before), tileOf, before, key);
    }
  }

  lemma SplitIsFitOfNothing(weight: Weight, room: nat)
    ensures Fit(weight, [], room) == []
  {
  }

  ghost predicate Reflects(cache: Cache, tileOf: TileKey -> Tile, log: seq<TileKey>) {
    && Sound(cache)
    && cache.order == Fit(Bytes(tileOf), ByLastUse(log), cache.budget)
    && (forall key | key in cache.tiles :: cache.tiles[key] == tileOf(key))
  }

  lemma AccessKeepsLongestFit(cache: Cache, tileOf: TileKey -> Tile, log: seq<TileKey>, key: TileKey)
    requires Reflects(cache, tileOf, log) && tileOf(key).SizeBytes() <= cache.budget
    ensures Reflects(Access(cache, tileOf, key), tileOf, log + [key])
    ensures Access(cache, tileOf, key).budget == cache.budget
  {
    hide Without, Total, Fit, ByLastUse, Distinct, Sizes, Bytes, Sound;
    ByLastUseIsSorted(log);
    UseMovesToEnd(log, key);
    SoundListsTiles(cache);
    if key in cache.tiles {
      GotIsSound(cache, key);
      FitAfterHit(Bytes(tileOf), ByLastUse(log), cache.budget, key);
    } else {
      InsertKeepsEnd(cache, key, tileOf(key));
      WithoutAbsent(cache.order, key);
      SizesAreBytes(cache, tileOf);
      FitAgrees(Sizes(cache.tiles), Bytes(tileOf), cache.order, cache.budget - tileOf(key).SizeBytes());
      FitAfterMiss(Bytes(tileOf), ByLastUse(log), cache.budget, key);
    }
  }

  lemma SoundListsTiles(cache: Cache)
    requires Sound(cache)
    ensures forall key :: key in cache.order <==> key in cache.tiles
  {
  }

  lemma SizesAreBytes(cache: Cache, tileOf: TileKey -> Tile)
    requires Sound(cache) && forall key | key in cache.tiles :: cache.tiles[key] == tileOf(key)
    ensures forall key | key in cache.order :: Sizes(cache.tiles)(key) == Bytes(tileOf)(key)
    ensures forall key :: Bytes(tileOf)(key) == tileOf(key).SizeBytes()
  {
  }

  lemma {:induction false} FitAgrees(weight: Weight, weight': Weight, keys: seq<TileKey>, room: nat)
    requires forall key | key in keys :: weight(key) == weight'(key)
    ensures Fit(weight, keys, room) == Fit(weight', keys, room)
  {
    TotalAgrees(weight, weight', keys);
    if Total(weight, keys) > room {
      FitAgrees(weight, weight', keys[1..], room);
    }
  }

  lemma {:induction false} MoreRoomFitsMore(weight: Weight, keys: seq<TileKey>, small: nat, large: nat)
    requires small <= large
    ensures IsSuffix(Fit(weight, keys, small), Fit(weight, keys, large))
  {
    if Total(weight, keys) <= large {
      var older := FitSplits(weight, keys, small);
    } else {
      MoreRoomFitsMore(weight, keys[1..], small, large);
    }
  }

  /** The accesses whose tile the budget takes at all. */
  function Taken(budget: nat, tileOf: TileKey -> Tile, keys: seq<TileKey>): seq<TileKey> {
    if keys == [] then []
    else
      var last := keys[|keys| - 1];
      Taken(budget, tileOf, keys[..|keys| - 1]) + if tileOf(last).SizeBytes() <= budget then [last] else []
  }

  /** Pages too large for the cache come and go without a trace. */
  lemma {:induction false} OversizedLeaveNoTrace(budget: nat, tileOf: TileKey -> Tile, keys: seq<TileKey>)
    ensures AccessAll(budget, tileOf, keys) == AccessAll(budget, tileOf, Taken(budget, tileOf, keys))
    ensures forall key | key in Taken(budget, tileOf, keys) :: tileOf(key).SizeBytes() <= budget
    ensures forall key | key in AccessAll(budget, tileOf, keys).tiles :: tileOf(key).SizeBytes() <= budget
    ensures AccessAll(budget, tileOf, keys).budget == budget
  {
    hide Access;
    if keys != [] {
      var front, last := keys[..|keys| - 1], keys[|keys| - 1];
      OversizedLeaveNoTrace(budget, tileOf, front);
      AccessTakesOrNot(AccessAll(budget, tileOf, front), tileOf, last);
      var before := Taken(budget, tileOf, front);
      assert (before + [last])[..|before|] == before && before + [] == before;
    }
  }

  /** A recency list from `key` on: the key and those used after it. */
  function Since(keys: seq<TileKey>, key: TileKey): seq<TileKey> {
    if keys == [] || keys[0] == key then keys else Since(keys[1..], key)
  }

  lemma {:induction false} SinceIsLighter(weight: Weight, keys: seq<TileKey>, key: TileKey)
    ensures Total(weight, Since(keys, key)) <= Total(weight, keys)
  {
    if keys != [] && keys[0] != key {
      SinceIsLighter(weight, keys[1..], key);
    }
  }

  lemma {:induction false} FitHolds(weight: Weight, keys: seq<TileKey>, room: nat, key: TileKey)
    requires Distinct(keys) && key in keys
    ensures key in Fit(weight, keys, room) <==> Total(weight, Since(keys, key)) <= room
  {
    SinceIsLighter(weight, keys, key);
    if Total(weight, keys) > room {
      var rest := keys[1..];
      assert keys == [keys[0]] + rest;
      if keys[0] == key {
        var older := FitSplits(weight, rest, room);
        var kept := Fit(weight, rest, room);
        assert rest == older + kept;
        forall i | 0 <= i < |kept|
          ensures kept[i] != key
        {
          assert kept[i] == keys[1 + |older| + i];
        }
        assert Fit(weight, keys, room) == kept;
        assert Since(keys, key) == keys;
      } else {
        assert key in rest;
        FitHolds(weight, rest, room, key);
      }
    }
  }

  /**
   The exact condition for a hit, whatever the traffic: the distinct pages used since the page's last use,
   itself included, fit in the budget together. Pages larger than the budget do not matter.
   */
  lemma HitIffRecentUseFits(budget: nat, tileOf: TileKey -> Tile, keys: seq<TileKey>, key: TileKey)
    ensures var taken := Taken(budget, tileOf, keys);
            key in AccessAll(budget, tileOf, keys).tiles <==>
            key in taken && Total(Bytes(tileOf), Since(ByLastUse(taken), key)) <= budget
  {
    hide Fit, ByLastUse, Total, AccessAll, Taken, Since, Distinct;
    var taken := Taken(budget, tileOf, keys);
    OversizedLeaveNoTrace(budget, tileOf, keys);
    DemandCacheIsLongestFit(budget, tileOf, taken);
    SoundListsTiles(AccessAll(budget, tileOf, keys));
    ByLastUseIsSorted(taken);
    var recent := ByLastUse(taken);
    if key in taken {
      FitHolds(Bytes(tileOf), recent, budget, key);
    } else {
      var older := FitSplits(Bytes(tileOf), recent, budget);
    }
  }

  lemma AccessTakesOrNot(cache: Cache, tileOf: TileKey -> Tile, key: TileKey)
    requires forall k | k in cache.tiles :: tileOf(k).SizeBytes() <= cache.budget
    ensures Access(cache, tileOf, key).budget == cache.budget
    ensures tileOf(key).SizeBytes() > cache.budget ==> Access(cache, tileOf, key) == cache
    ensures forall k | k in Access(cache, tileOf, key).tiles :: tileOf(k).SizeBytes() <= cache.budget
  {
  }

  lemma {:induction false} SameTaken(small: nat, large: nat, tileOf: TileKey -> Tile, keys: seq<TileKey>)
    requires small <= large
    requires forall key | key in keys :: tileOf(key).SizeBytes() <= small || large < tileOf(key).SizeBytes()
    ensures Taken(small, tileOf, keys) == Taken(large, tileOf, keys)
  {
    if keys != [] {
      assert keys[|keys| - 1] in keys;
      SameTaken(small, large, tileOf, keys[..|keys| - 1]);
    }
  }

  /** A bigger budget never turns a hit into a miss, unless some tile fits only the bigger one. */
  lemma BiggerBudgetKeepsHits(small: nat, large: nat, tileOf: TileKey -> Tile, keys: seq<TileKey>)
    requires small <= large
    requires forall key | key in keys :: tileOf(key).SizeBytes() <= small || large < tileOf(key).SizeBytes()
    ensures var less, more := AccessAll(small, tileOf, keys), AccessAll(large, tileOf, keys);
            && IsSuffix(less.order, more.order)
            && less.tiles.Keys <= more.tiles.Keys
  {
    hide Fit, ByLastUse, Total, AccessAll, Taken;
    OversizedLeaveNoTrace(small, tileOf, keys);
    OversizedLeaveNoTrace(large, tileOf, keys);
    SameTaken(small, large, tileOf, keys);
    var taken := Taken(small, tileOf, keys);
    DemandCacheIsLongestFit(small, tileOf, taken);
    DemandCacheIsLongestFit(large, tileOf, taken);
    MoreRoomFitsMore(Bytes(tileOf), ByLastUse(taken), small, large);
    SuffixIsSubset(AccessAll(small, tileOf, keys), AccessAll(large, tileOf, keys));
  }

  /**
   The exact condition for one page to be a hit with the smaller budget and a miss with the larger: what the
   smaller budget takes of the traffic since the page's last use fits it, and what the larger takes does not.
   */
  lemma HitIsLostIff(small: nat, large: nat, tileOf: TileKey -> Tile, keys: seq<TileKey>, key: TileKey)
    requires small <= large
    ensures var less, more := Taken(small, tileOf, keys), Taken(large, tileOf, keys);
            && key in AccessAll(small, tileOf, keys).tiles && key !in AccessAll(large, tileOf, keys).tiles <==>
            && key in less
            && Total(Bytes(tileOf), Since(ByLastUse(less), key)) <= small
            && large < Total(Bytes(tileOf), Since(ByLastUse(more), key))
  {
    hide AccessAll, Total, Since, ByLastUse, Taken;
    HitIffRecentUseFits(small, tileOf, keys, key);
    HitIffRecentUseFits(large, tileOf, keys, key);
    MoreIsTaken(small, large, tileOf, keys);
  }

  lemma {:induction false} MoreIsTaken(small: nat, large: nat, tileOf: TileKey -> Tile, keys: seq<TileKey>)
    requires small <= large
    ensures forall key | key in Taken(small, tileOf, keys) :: key in Taken(large, tileOf, keys)
  {
    if keys != [] {
      MoreIsTaken(small, large, tileOf, keys[..|keys| - 1]);
    }
  }

  lemma SuffixIsSubset(less: Cache, more: Cache)
    requires Sound(less) && Sound(more) && IsSuffix(less.order, more.order)
    ensures less.tiles.Keys <= more.tiles.Keys
  {
  }

  /** The condition on sizes is needed: a tile only the larger budget takes can push out one the smaller keeps. */
  lemma BiggerBudgetCanLoseAHit()
    ensures exists small, large, tileOf, keys, key ::
              small <= large &&
              key in AccessAll(small, tileOf, keys).tiles && key !in AccessAll(large, tileOf, keys).tiles
  {
    hide AccessAll;
    var a, b := TileKey(0, 8, 0), TileKey(1, 8, 0);
    var tileOf := (key: TileKey) => Tile(1, 1, if key.page == 0 then [0] else [0, 0]);
    TwoAccesses(1, tileOf, a, b);
    TwoAccesses(2, tileOf, a, b);
    assert a in AccessAll(1, tileOf, [a, b]).tiles && a !in AccessAll(2, tileOf, [a, b]).tiles;
  }

  lemma FirstAccess(budget: nat, tileOf: TileKey -> Tile, a: TileKey)
    requires tileOf(a).SizeBytes() <= budget
    ensures AccessAll(budget, tileOf, [a]) == Cache(map[a := tileOf(a)], [a], budget)
  {
  }

  /** A one-byte tile survives a two-byte tile just when there is no room at all for the second. */
  lemma TwoAccesses(budget: nat, tileOf: TileKey -> Tile, a: TileKey, b: TileKey)
    requires a != b && tileOf(a).SizeBytes() == 1 && tileOf(b).SizeBytes() == 2 && 1 <= budget <= 2
    ensures a in AccessAll(budget, tileOf, [a, b]).tiles <==> budget == 1
  {
    FirstAccess(budget, tileOf, a);
    var one := Cache(map[a := tileOf(a)], [a], budget);
    assert [a, b][..1] == [a];
    assert AccessAll(budget, tileOf, [a, b]) == Access(one, tileOf, b);
    assert Without([a], b) == [a];
    OnlyFits(Sizes(one.tiles), a);
  }

  lemma OnlyFits(weight: Weight, key: TileKey)
    requires weight(key) > 0
    ensures Fit(weight, [key], 0) == []
  {
  }

  /** The bytes of pixels held for these keys. */
  function PixelsHeld(tiles: map<TileKey, Tile>, keys: seq<TileKey>): nat
    requires forall key | key in keys :: key in tiles
  {
    if keys == [] then 0 else |tiles[keys[0]].pixels| + PixelsHeld(tiles, keys[1..])
  }

  lemma {:induction false} TotalIsPixels(tiles: map<TileKey, Tile>, keys: seq<TileKey>)
    requires forall key | key in keys :: key in tiles
    ensures Total(Sizes(tiles), keys) == PixelsHeld(tiles, keys)
  {
    if keys != [] {
      TotalIsPixels(tiles, keys[1..]);
    }
  }

  /** After any history the pixels of all cached tiles together are within the budget. */
  lemma PixelsFitBudget(budget: nat, ops: seq<Op>)
    ensures forall key | key in Run(budget, ops).order :: key in Run(budget, ops).tiles
    ensures PixelsHeld(Run(budget, ops).tiles, Run(budget, ops).order) <= budget
  {
    hide Run, Total, Sizes;
    CachedKeysAreMostRecent(budget, ops);
    SoundListsTiles(Run(budget, ops));
    TotalIsPixels(Run(budget, ops).tiles, Run(budget, ops).order);
  }

  // ----------------------------------------------------------------- the class

  class TileCache {
    var tiles: map<TileKey, Tile>
    var order: seq<TileKey>
    var usedBytes: int
    const budgetBytes: nat

    ghost function Contents(): Cache
      reads this
    {
      Cache(tiles, order, budgetBytes)
    }

    ghost predicate Valid()
      reads this
    {
      Sound(Contents()) && usedBytes == Total(Sizes(tiles), order)
    }

    constructor (budgetBytes: nat)
      ensures Valid() && Contents() == Empty(budgetBytes)
    {
      tiles, order, usedBytes, this.budgetBytes := map[], [], 0, budgetBytes;
    }

    method Get(key: TileKey) returns (tile: Option<Tile>)
      requires Valid()
      modifies this
      ensures Valid() && (Contents(), tile) == Got(old(Contents()), key)
    {
      GotIsSound(Contents(), key);
      if key in tiles {
        ghost var weight := Sizes(tiles);
        WithoutTotal(weight, order, key);
        TotalOfSum(weight, Without(order, key), [key]);
        Touch(key);
        tile := Some(tiles[key]);
      } else {
        tile := None;
      }
    }

    method Touch(key: TileKey)
      requires Distinct(order)
      modifies this`order
      ensures order == if key in old(order) then Without(old(order), key) + [key] else old(order)
    {
      var pos := 0;
      while pos < |order| && order[pos] != key
        invariant 0 <= pos <= |order|
        invariant key !in order[..pos]
      {
        pos := pos + 1;
      }
      if pos < |order| {
        WithoutMiddle(order, pos);
        order := order[..pos] + order[pos + 1..] + [key];
      }
    }

    method EvictOne() returns (evicted: bool)
      requires Listed() && usedBytes == Total(Sizes(tiles), order)
      modifies this
      ensures evicted <==> old(order) != []
      ensures !evicted ==> tiles == old(tiles) && order == old(order) && usedBytes == old(usedBytes)
      ensures evicted ==> order == old(order)[1..] && tiles == old(tiles) - {old(order)[0]}
      ensures Listed() && usedBytes == Total(Sizes(tiles), order)
    {
      if order == [] {
        return false;
      }
      var key := order[0];
      ghost var before := Sizes(tiles);
      order := order[1..];
      usedBytes := usedBytes - tiles[key].SizeBytes();
      tiles := tiles - {key};
      TotalAgrees(before, Sizes(tiles), order);
      evicted := true;
    }

    /** `Sound`, apart from the budget. */
    ghost predicate Listed()
      reads this
    {
      Distinct(order) && forall key :: key in order <==> key in tiles
    }

    method Insert(key: TileKey, tile: Tile) returns (accepted: bool)
      requires Valid()
      modifies this
      ensures Valid() && (Contents(), accepted) == Inserted(old(Contents()), key, tile)
    {
      hide Without, Total, Fit, Sizes, Distinct, KeepsLongest, IsSuffix;
      InsertedIsSound(Contents(), key, tile);
      var size := tile.SizeBytes();
      if size > budgetBytes {
        return false;
      }
      ghost var before, sizes := tiles, Sizes(tiles);
      WithoutMembers(order, key);
      Forget(key);
      FitAgrees(Sizes(tiles), sizes, order, budgetBytes - size);
      MakeRoom(size);
      ghost var kept := order;
      Push(key, tile);
      SameEntries(before, kept, key, tiles, tile);
      accepted := true;
    }

    method Push(key: TileKey, tile: Tile)
      requires usedBytes == Total(Sizes(tiles), order) && key !in order
      requires forall k :: k in order <==> k in tiles
      modifies this
      ensures tiles == old(tiles)[key := tile] && order == old(order) + [key]
      ensures usedBytes == Total(Sizes(tiles), order)
    {
      ghost var sizes, kept := Sizes(tiles), order;
      usedBytes := usedBytes + tile.SizeBytes();
      tiles := tiles[key := tile];
      order := order + [key];
      TotalAgrees(sizes, Sizes(tiles), kept);
      TotalOfSum(Sizes(tiles), kept, [key]);
    }

    /** Takes out the entry a new tile for `key` replaces. */
    method Forget(key: TileKey)
      requires Listed() && usedBytes == Total(Sizes(tiles), order)
      modifies this
      ensures Listed() && usedBytes == Total(Sizes(tiles), order)
      ensures order == Without(old(order), key) && tiles == old(tiles) - {key}
      ensures forall k | k in order :: Sizes(tiles)(k) == Sizes(old(tiles))(k)
    {
      hide Without, Total;
      ghost var before := Sizes(tiles);
      WithoutTotal(before, order, key);
      WithoutDistinct(order, key);
      WithoutMembers(order, key);
      if key in tiles {
        usedBytes := usedBytes - tiles[key].SizeBytes();
        tiles := tiles - {key};
        order := Without(order, key);
      } else {
        WithoutAbsent(order, key);
        assert tiles - {key} == tiles;
      }
      TotalAgrees(before, Sizes(tiles), order);
    }

    /** The eviction loop: it never runs out of entries before there is room. */
    method MakeRoom(size: nat)
      requires Listed() && usedBytes == Total(Sizes(tiles), order) && size <= budgetBytes
      modifies this
      ensures Listed() && usedBytes == Total(Sizes(tiles), order)
      ensures order == Fit(Sizes(old(tiles)), old(order), budgetBytes - size)
      ensures tiles == map k | k in old(tiles) && k in order :: old(tiles)[k]
      ensures forall k | k in order :: k in old(order)
    {
      ghost var before := Sizes(tiles);
      while usedBytes + size > budgetBytes
        invariant Listed() && usedBytes == Total(Sizes(tiles), order)
        invariant Fit(before, order, budgetBytes - size) == Fit(before, old(order), budgetBytes - size)
        invariant forall k | k in order :: k in old(order) && k in old(tiles) && tiles[k] == old(tiles)[k]
        decreases |order|
      {
        TotalAgrees(before, Sizes(tiles), order);
        var evicted := EvictOne();
        if !evicted {
          assert false;
          break;
        }
      }
      TotalAgrees(before, Sizes(tiles), order);
    }

    method Clear()
      modifies this
      ensures Valid() && Contents() == Empty(budgetBytes)
    {
      tiles, order, usedBytes := map[], [], 0;
    }
  }

  lemma SameEntries(tiles: map<TileKey, Tile>, kept: seq<TileKey>, key: TileKey,
                    tiles': map<TileKey, Tile>, tile: Tile)
    requires key !in kept
    requires tiles' == (map k | k in tiles - {key} && k in kept :: (tiles - {key})[k])[key := tile]
    ensures tiles' == (map k | k in tiles && k in kept :: tiles[k])[key := tile]
  {
  }

  lemma OnlyOnce(keys: seq<TileKey>, pos: nat)
    requires Distinct(keys) && pos < |keys|
    ensures keys[pos] !in keys[..pos] && keys[pos] !in keys[pos + 1..]
  {
  }

  lemma WithoutMiddle(keys: seq<TileKey>, pos: nat)
    requires Distinct(keys) && pos < |keys|
    ensures Without(keys, keys[pos]) == keys[..pos] + keys[pos + 1..]
  {
    hide Distinct;
    var key, before, after := keys[pos], keys[..pos], keys[pos + 1..];
    assert keys == before + ([key] + after);
    WithoutOfSum(before, [key] + after, key);
    assert key !in before && key !in after by {
      OnlyOnce(keys, pos);
    }
    WithoutAbsent(before, key);
    WithoutAbsent(after, key);
    assert Without([key] + after, key) == Without(after, key) by {
      assert ([key] + after)[1..] == after;
    }
  }
}
