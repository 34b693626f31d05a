/** The registries of attached databases (src/storage/oracle_catalog.cpp:105-147): a list of weak
    pointers for clearing caches, and a table of weak pointers by lower-cased alias. */
module AliasRegistry {
  import opened Wrappers
  import opened Sequences
  import opened Text
  import opened CatalogCache

  /** Position of the latest registration under `alias`, in whatever case either was written, or
      the length when there is none. */
  ghost function Latest(history: seq<(string, nat)>, alias: string): (k: nat)
    ensures k <= |history|
    ensures k < |history| ==> SameUpToCase(history[k].0, alias) && forall j :: k < j < |history| ==> !SameUpToCase(history[j].0, alias)
    ensures k == |history| ==> forall j :: 0 <= j < |history| ==> !SameUpToCase(history[j].0, alias)
  {
    if history == [] then 0
    else
      var last := |history| - 1;
      if SameUpToCase(history[last].0, alias) then last
      else
        var k := Latest(history[..last], alias);
        if k < last then k else |history|
  }

  /** The specification of a lookup: the latest registration under the alias up to case, if the
      state registered then is still alive. */
  ghost function LookupSpec(history: seq<(string, nat)>, live: set<nat>, alias: string): Option<nat> {
    var k := Latest(history, alias);
    if k < |history| && history[k].1 in live then Some(history[k].1) else None
  }

  /** The table agrees with the history under `alias`, except where only a dead state is involved. */
  ghost predicate TableFits(aliases: map<string, nat>, history: seq<(string, nat)>, live: set<nat>, alias: string) {
    var k := Latest(history, alias);
    if Lower(alias) in aliases then k < |history| && aliases[Lower(alias)] == history[k].1
    else k < |history| ==> history[k].1 !in live
  }

  lemma LatestAppend(history: seq<(string, nat)>, alias: string, id: nat, other: string)
    ensures Latest(history + [(alias, id)], other) ==
            if SameUpToCase(alias, other) then |history|
            else if Latest(history, other) < |history| then Latest(history, other) else |history| + 1
  {
    assert (history + [(alias, id)])[..|history|] == history;
  }

  /** One entry of the table serves all spellings of its alias, and no other alias. */
  lemma RegisteredFits(aliases: map<string, nat>, history: seq<(string, nat)>, live: set<nat>, alias: string, id: nat, other: string)
    requires TableFits(aliases, history, live, other)
    ensures TableFits(aliases[Lower(alias) := id], history + [(alias, id)], live, other)
  {
    LatestAppend(history, alias, id, other);
    CaseMapsIff(alias, other);
  }

  ghost predicate AllFit(aliases: map<string, nat>, history: seq<(string, nat)>, live: set<nat>) {
    forall alias :: TableFits(aliases, history, live, alias)
  }

  lemma RegisterFits(aliases: map<string, nat>, history: seq<(string, nat)>, live: set<nat>, alias: string, id: nat)
    requires AllFit(aliases, history, live)
    ensures AllFit(aliases[Lower(alias) := id], history + [(alias, id)], live)
  {
    var aliases', history' := aliases[Lower(alias) := id], history + [(alias, id)];
    forall other ensures TableFits(aliases', history', live, other) {
      assert TableFits(aliases, history, live, other);
      RegisteredFits(aliases, history, live, alias, id, other);
    }
  }

  /** States may die, and states that no alias was ever registered for may come alive. */
  lemma LiveChangesFit(aliases: map<string, nat>, history: seq<(string, nat)>, live: set<nat>, live': set<nat>)
    requires AllFit(aliases, history, live)
    requires forall j :: 0 <= j < |history| && history[j].1 in live' ==> history[j].1 in live
    ensures AllFit(aliases, history, live')
  {
    forall other ensures TableFits(aliases, history, live', other) {
      assert TableFits(aliases, history, live, other);
    }
  }

  lemma {:induction false} LatestSame(history: seq<(string, nat)>, alias: string, other: string)
    requires Lower(alias) == Lower(other)
    ensures Latest(history, alias) == Latest(history, other)
  {
    if history != [] {
      var last := |history| - 1;
      LatestSame(history[..last], alias, other);
      CaseMapsIff(history[last].0, alias);
      CaseMapsIff(history[last].0, other);
    }
  }

  /** Erasing the entry of a dead state. */
  lemma ErasedFits(aliases: map<string, nat>, history: seq<(string, nat)>, live: set<nat>, alias: string)
    requires AllFit(aliases, history, live)
    requires Lower(alias) in aliases && aliases[Lower(alias)] !in live
    ensures AllFit(aliases - {Lower(alias)}, history, live)
  {
    var aliases' := aliases - {Lower(alias)};
    forall other ensures TableFits(aliases', history, live, other) {
      assert TableFits(aliases, history, live, other) && TableFits(aliases, history, live, alias);
      if Lower(other) == Lower(alias) {
        LatestSame(history, alias, other);
      }
    }
  }

  function LiveOnly(ids: seq<nat>, live: set<nat>): seq<nat> {
    if ids == [] then []
    else
      var init := LiveOnly(ids[..|ids| - 1], live);
      if ids[|ids| - 1] in live then init + [ids[|ids| - 1]] else init
  }

  lemma {:induction false} LiveOnlyMembers(ids: seq<nat>, live: set<nat>)
    ensures forall x :: x in LiveOnly(ids, live) <==> x in ids && x in live
    ensures |LiveOnly(ids, live)| <= |ids|
  {
    if ids != [] {
      LiveOnlyMembers(ids[..|ids| - 1], live);
      assert ids == ids[..|ids| - 1] + [ids[|ids| - 1]];
    }
  }

  lemma LiveOnlyNext(ids: seq<nat>, n: nat, live: set<nat>)
    requires n < |ids|
    ensures LiveOnly(ids[..n + 1], live) == if ids[n] in live then LiveOnly(ids[..n], live) + [ids[n]] else LiveOnly(ids[..n], live)
  {
    assert ids[..n + 1][..n] == ids[..n];
  }

  /** The entry under the iterator is the next one not yet seen. */
  lemma NextSeen(registry: seq<nat>, it: nat, before: seq<nat>, seen: nat)
    requires it < |registry| && seen <= |before| && registry[it..] == before[seen..]
    ensures seen < |before| && registry[it] == before[seen] && registry[it + 1..] == before[seen + 1..]
    ensures before[..seen + 1] == before[..seen] + [before[seen]]
    ensures registry[..it + 1] == registry[..it] + [registry[it]]
  {
    assert registry[it] == registry[it..][0] && before[seen] == before[seen..][0];
    assert registry[it + 1..] == registry[it..][1..] && before[seen + 1..] == before[seen..][1..];
  }

  /** The live entries of two lists in sequence are those of the first and then those of the second. */
  lemma {:induction false} LiveOnlySplits(first: seq<nat>, second: seq<nat>, live: set<nat>)
    ensures LiveOnly(first + second, live) == LiveOnly(first, live) + LiveOnly(second, live)
  {
    if second == [] {
      Neutral(first);
      Neutral(LiveOnly(first, live));
    } else {
      var last := |second| - 1;
      InitOfAppend(first, second);
      LiveOnlySplits(first, second[..last], live);
      Associative(LiveOnly(first, live), LiveOnly(second[..last], live), [second[last]]);
    }
  }

  class Registries {
    var registry: seq<nat>
    var aliases: map<string, nat>
    /** The states that somebody still owns, with their caches; a weak pointer to `id` locks if and
        only if `id` is here. */
    var live: map<nat, Cache>
    ghost var used: set<nat>
    ghost var history: seq<(string, nat)>

    /** The alias table agrees with the history, except where only dead states are involved. */
    ghost predicate Valid()
      reads this
    {
      && live.Keys <= used
      && (forall id :: id in registry ==> id in used)
      && (forall j :: 0 <= j < |history| ==> history[j].1 in used)
      && AllFit(aliases, history, live.Keys)
    }

    constructor ()
      ensures Valid() && registry == [] && history == [] && live == map[]
    {
      registry, aliases, live, used, history := [], map[], map[], {}, [];
    }

    /** A state object, new or alive already, registered under an alias (an empty alias only joins
        the list). */
    method Register(id: nat, alias: string)
      requires Valid() && (id in used ==> id in live)
      modifies this
      ensures Valid() && used == old(used) + {id}
      ensures live == (if id in old(live) then old(live) else old(live)[id := EMPTY]) && registry == old(registry) + [id]
      ensures history == if alias == "" then old(history) else old(history) + [(alias, id)]
    {
      LiveChangesFit(aliases, history, live.Keys, live.Keys + {id});
      if id !in live {
        live := live[id := EMPTY];
      }
      assert live.Keys == old(live.Keys) + {id};
      used := used + {id};
      registry := registry + [id];
      if alias != "" {
        RegisterFits(aliases, history, live.Keys, alias, id);
        aliases := aliases[Lower(alias) := id];
        history := history + [(alias, id)];
      }
    }

    /** The last owner of a state lets go of it. */
    method Expire(id: nat)
      requires Valid()
      modifies this`live
      ensures Valid() && live == old(live) - {id}
    {
      LiveChangesFit(aliases, history, live.Keys, live.Keys - {id});
      live := live - {id};
    }

    /** LookupByAlias: erasing a dead entry on the way is unobservable. */
    method LookupByAlias(alias: string) returns (r: Option<nat>)
      requires Valid()
      modifies this`aliases
      ensures Valid()
      ensures r == LookupSpec(history, live.Keys, alias)
    {
      var key := Lower(alias);
      assert TableFits(aliases, history, live.Keys, alias);
      if key !in aliases {
        return None;
      }
      var id := aliases[key];
      if id !in live {
        ErasedFits(aliases, history, live.Keys, alias);
        aliases := aliases - {key};
        return None;
      }
      r := Some(id);
    }

    /** ClearAllCaches: the erase-while-iterating loop keeps exactly the live entries, in order,
        and empties the cache of each. */
    method ClearAllCaches()
      requires Valid()
      modifies this`registry, this`live
      ensures Valid()
      ensures registry == LiveOnly(old(registry), old(live.Keys))
      ensures live.Keys == old(live.Keys)
      ensures forall id :: id in live ==> live[id] == if id in old(registry) then EMPTY else old(live[id])
    {
      ghost var before, alive := registry, live.Keys;
      ghost var seen, cleared := 0, {};
      var it := 0;
      while it < |registry|
        invariant seen <= |before| && it <= |registry|
        invariant registry[..it] == LiveOnly(before[..seen], alive)
        invariant registry[it..] == before[seen..]
        invariant live.Keys == alive
        invariant forall id :: id in live ==> live[id] == if id in cleared then EMPTY else old(live[id])
        invariant forall id :: id in cleared <==> id in before[..seen]
        decreases |before| - seen
      {
        var id := registry[it];
        NextSeen(registry, it, before, seen);
        LiveOnlyNext(before, seen, alive);
        if id !in live {
          registry := registry[..it] + registry[it + 1..];
        } else {
          live := live[id := EMPTY];
          it := it + 1;
        }
        seen, cleared := seen + 1, cleared + {id};
      }
      assert before[..seen] == before;
      assert registry[..it] == registry;
      LiveOnlyMembers(before, alive);
    }
  }
}
