/** The bounded registry of planned witnesses that were not hit yet. */
module Attribution {
  import opened Wrappers
  import opened Rv32Isa
  import opened ArmsAndTargets
  import opened StreamPlan

  datatype RegistryError = DuplicateInBatch | AlreadyRegistered | BadIndex | NonFutureWitness

  predicate DistinctKeys(ws: seq<Witness>) {
    forall i, j | 0 <= i < j < |ws| :: KeyOf(ws[i]) != KeyOf(ws[j])
  }

  predicate NoneRegistered(byKey: map<Key, Witness>, ws: seq<Witness>) {
    forall w | w in ws :: KeyOf(w) !in byKey
  }

  /** The table with the witnesses added. */
  function Registered(byKey: map<Key, Witness>, ws: seq<Witness>): (m: map<Key, Witness>)
    ensures forall k :: k in m <==> k in byKey || exists w :: w in ws && KeyOf(w) == k
  {
    if ws == [] then byKey
    else
      var m := Registered(byKey, ws[..|ws| - 1]);
      var last := ws[|ws| - 1];
      assert forall w :: w in ws <==> w in ws[..|ws| - 1] || w == last;
      m[KeyOf(last) := last]
  }

  /** The table without the witnesses whose consumer is no longer future. */
  function Future(byKey: map<Key, Witness>, latest: int): map<Key, Witness> {
    map k | k in byKey && k.consumer > latest :: byKey[k]
  }

  lemma OneFewer(m: map<Key, Witness>, k: Key)
    requires k in m
    ensures |m - {k}| == |m| - 1
  {
    assert (m - {k}).Keys == m.Keys - {k};
  }

  lemma OneMoreGone(m: map<Key, Witness>, gone: set<Key>, k: Key)
    ensures m - gone - {k} == m - (gone + {k})
  {
  }

  /** The two indexes hold the same witnesses, and no consumer is kept without one. */
  ghost predicate Indexed(byKey: map<Key, Witness>, keysByConsumer: map<int, set<Key>>) {
    && (forall k | k in byKey :: KeyOf(byKey[k]) == k && k.consumer in keysByConsumer && k in keysByConsumer[k.consumer])
    && (forall c | c in keysByConsumer :: keysByConsumer[c] != {})
    && (forall c, k | c in keysByConsumer && k in keysByConsumer[c] :: k in byKey && k.consumer == c)
  }

  lemma ConsumerGone(byKey: map<Key, Witness>, keysByConsumer: map<int, set<Key>>, c: int)
    requires Indexed(byKey, keysByConsumer) && c in keysByConsumer
    ensures keysByConsumer[c] <= byKey.Keys
    ensures Indexed(byKey - keysByConsumer[c], keysByConsumer - {c})
    ensures byKey - keysByConsumer[c] == map k | k in byKey && k.consumer != c :: byKey[k]
  {
    hide KeyOf;
    assert forall k | k in byKey :: k in keysByConsumer[c] <==> k.consumer == c;
  }

  class Registry {
    var byKey: map<Key, Witness>
    var keysByConsumer: map<int, set<Key>>

    ghost predicate Valid()
      reads this
    {
      Indexed(byKey, keysByConsumer)
    }

    constructor ()
      ensures Valid() && byKey == map[]
    {
      byKey := map[];
      keysByConsumer := map[];
    }

    method Register(w: Witness) returns (r: Result<(), RegistryError>)
      requires Valid()
      modifies this
      ensures Valid()
      ensures r.Ok? <==> KeyOf(w) !in old(byKey)
      ensures byKey == if r.Ok? then old(byKey)[KeyOf(w) := w] else old(byKey)
    {
      var key := KeyOf(w);
      if key in byKey {
        return Err(AlreadyRegistered);
      }
      byKey := byKey[key := w];
      var keys := if w.consumer in keysByConsumer then keysByConsumer[w.consumer] else {};
      keysByConsumer := keysByConsumer[w.consumer := keys + {key}];
      r := Ok(());
    }

    /** All or none: a duplicate anywhere leaves the registry as it was. */
    method RegisterMany(ws: seq<Witness>) returns (r: Result<(), RegistryError>)
      requires Valid()
      modifies this
      ensures Valid()
      ensures r.Ok? <==> DistinctKeys(ws) && NoneRegistered(old(byKey), ws)
      ensures byKey == if r.Ok? then Registered(old(byKey), ws) else old(byKey)
    {
      if !DistinctKeys(ws) {
        return Err(DuplicateInBatch);
      }
      if !NoneRegistered(byKey, ws) {
        return Err(AlreadyRegistered);
      }
      for k := 0 to |ws|
        invariant Valid() && byKey == Registered(old(byKey), ws[..k])
      {
        assert ws[..k + 1][..k] == ws[..k];
        assert ws[k] in ws;
        var one := Register(ws[k]);
        assert one.Ok?;
      }
      assert ws[..|ws|] == ws;
      r := Ok(());
    }

    /** Takes out the witness with exactly this key; any other hit leaves the registry alone. */
    method ConsumeMatch(key: Key) returns (r: Option<Witness>)
      requires Valid()
      modifies this
      ensures Valid() && byKey == old(byKey) - {key}
      ensures r == if key in old(byKey) then Some(old(byKey)[key]) else None
    {
      if key !in byKey {
        return None;
      }
      var w := byKey[key];
      byKey := byKey - {key};
      var keys := keysByConsumer[w.consumer] - {key};
      if keys == {} {
        keysByConsumer := keysByConsumer - {w.consumer};
      } else {
        keysByConsumer := keysByConsumer[w.consumer := keys];
      }
      r := Some(w);
    }

    /** Removes the given keys one by one. */
    method DropKeys(all: set<Key>) returns (removed: nat)
      requires all <= byKey.Keys
      modifies `byKey
      ensures byKey == old(byKey) - all && removed == |old(byKey)| - |byKey|
    {
      var keys := all;
      ghost var gone: set<Key> := {};
      removed := 0;
      while keys != {}
        invariant keys <= byKey.Keys && gone !! keys && gone + keys == all
        invariant byKey == old(byKey) - gone && removed == |old(byKey)| - |byKey|
        decreases keys
      {
        var k :| k in keys;
        OneFewer(byKey, k);
        OneMoreGone(old(byKey), gone, k);
        keys := keys - {k};
        gone := gone + {k};
        byKey := byKey - {k};
        removed := removed + 1;
      }
      assert gone == all;
    }

    lemma ConsumersAreIndexed()
      requires Valid()
      ensures forall k | k in byKey :: k.consumer in keysByConsumer
    {
    }

    /** Removes one consumer's witnesses. */
    method DropConsumer(c: int) returns (removed: nat)
      requires Valid() && c in keysByConsumer
      modifies this
      ensures Valid() && keysByConsumer == old(keysByConsumer) - {c}
      ensures byKey == map k | k in old(byKey) && k.consumer != c :: old(byKey)[k]
      ensures removed == |old(byKey)| - |byKey|
    {
      hide Indexed;
      ConsumerGone(byKey, keysByConsumer, c);
      removed := DropKeys(keysByConsumer[c]);
      keysByConsumer := keysByConsumer - {c};
    }

    /** Drops every witness whose consumer is no longer future, and counts them. */
    method Prune(latest: int) returns (r: Result<nat, RegistryError>)
      requires Valid()
      modifies this
      ensures Valid() && (r.Ok? <==> latest > 0)
      ensures r.Err? ==> byKey == old(byKey)
      ensures r.Ok? ==> byKey == Future(old(byKey), latest) && r.value == |old(byKey)| - |byKey|
      ensures r.Ok? ==> forall k :: k in byKey <==> k in old(byKey) && k.consumer >= latest + 1
    {
      hide Registry.Valid;
      if latest <= 0 {
        return Err(BadIndex);
      }
      ConsumersAreIndexed();
      var stale := set c | c in keysByConsumer && c <= latest;
      var removed := 0;
      while stale != {}
        invariant Valid()
        invariant stale == set c | c in keysByConsumer && c <= latest
        invariant forall k :: k in byKey <==> k in old(byKey) && (k.consumer > latest || k.consumer in stale)
        invariant forall k | k in byKey :: byKey[k] == old(byKey)[k]
        invariant removed == |old(byKey)| - |byKey|
        decreases stale
      {
        var c :| c in stale;
        stale := stale - {c};
        var dropped := DropConsumer(c);
        removed := removed + dropped;
      }
      assert byKey == Future(old(byKey), latest);
      r := Ok(removed);
    }

    /** Forgets what termination leaves unexecuted; refuses if an executed consumer is still unmatched. */
    method DiscardFutureAfter(last: int) returns (r: Result<nat, RegistryError>)
      requires Valid()
      modifies this
      ensures Valid()
      ensures r.Ok? <==> last > 0 && forall k | k in old(byKey) :: k.consumer > last
      ensures r.Ok? ==> byKey == map[] && r.value == |old(byKey)|
      ensures r.Err? ==> byKey == old(byKey)
    {
      if last <= 0 {
        return Err(BadIndex);
      }
      if exists c | c in keysByConsumer :: c <= last {
        var c :| c in keysByConsumer && c <= last;
        ghost var k :| k in keysByConsumer[c];
        assert k in byKey;
        return Err(NonFutureWitness);
      }
      var removed := |byKey|;
      byKey := map[];
      keysByConsumer := map[];
      r := Ok(removed);
    }
  }
}
