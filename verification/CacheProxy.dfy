/** The write-behind cache of src/base/RedisCacheProxy.cpp.  Each script runs atomically on the
    server; here it is the sequence of its commands on a store of hashes.

    A cache has three hashes: its fields, the fields changed since they were last looted, and how
    they were changed.  The registry lists the caches with changes. */
module CacheProxy {

  type Id(==, !new)
  type Field(==, !new)
  type Data(==, !new)

  const DELETED: int := 2
  const MODIFIED: int := 3
  const ADDED: int := 4

  type Hash = map<Field, Data>
  type States = map<Field, int>

  /** A hash without fields does not exist; a missing one reads as empty. */
  datatype Store = Store(cache: map<Id, Hash>, dirty: map<Id, Hash>, state: map<Id, States>, registry: set<Id>)

  function HashOf(m: map<Id, Hash>, id: Id): Hash { if id in m then m[id] else map[] }

  function StatesOf(m: map<Id, States>, id: Id): States { if id in m then m[id] else map[] }

  /** The changes of a cache, as they are looted. */
  datatype Changes = Changes(dirty: Hash, state: States)

  function Pending(s: Store, id: Id): Changes { Changes(HashOf(s.dirty, id), StatesOf(s.state, id)) }

  /** What the reader of looted changes does to his copy. */
  function Replay(base: Hash, c: Changes): Hash {
    map f | f in base.Keys + c.dirty.Keys && !(f in c.state && c.state[f] == DELETED) ::
      if f in c.state && f in c.dirty then c.dirty[f] else if f in base then base[f] else c.dirty[f]
  }

  // ---------------------------------------------------------------- scripts as transitions

  /** Add and Update differ only in the state they leave. */
  function PutOne(s: Store, id: Id, f: Field, v: Data, how: int): Store {
    Store(s.cache[id := HashOf(s.cache, id)[f := v]],
          s.dirty[id := HashOf(s.dirty, id)[f := v]],
          s.state[id := StatesOf(s.state, id)[f := how]],
          s.registry + {id})
  }

  /** HDEL deletes the hash with its last field. */
  function Without(m: map<Id, Hash>, id: Id, f: Field): map<Id, Hash> {
    if id !in m || f !in m[id] then m else if m[id] - {f} == map[] then m - {id} else m[id := m[id] - {f}]
  }

  /** A missing field makes the script fail at a point where it has changed nothing. */
  function RemoveOne(s: Store, id: Id, f: Field): Store {
    var h := HashOf(s.cache, id);
    if f !in h then s
    else
      Store(Without(s.cache, id, f),
            s.dirty[id := HashOf(s.dirty, id)[f := h[f]]],
            s.state[id := StatesOf(s.state, id)[f := DELETED]],
            s.registry + {id})
  }

  function ClearOne(s: Store, id: Id): Store {
    if StatesOf(s.state, id) != map[] then s
    else Store(s.cache - {id}, s.dirty - {id}, s.state - {id}, s.registry - {id})
  }

  function LootAll(s: Store): Store {
    Store(s.cache, s.dirty - s.registry, s.state - s.registry, {})
  }

  /** Looted: the changes of every registered cache. */
  function Loot(s: Store): map<Id, Changes> { map id | id in s.registry :: Pending(s, id) }

  // ---------------------------------------------------------------- runs

  datatype Event =
    | Put(id: Id, f: Field, v: Data, how: int)
    | Remove(id: Id, f: Field)
    | Clear(id: Id)
    | LootDirty
    | Fetch(id: Id, f: Field, v: Data)

  /** Beside the store: `base` is what each cache held when it was last looted or cleared, with what
      was fetched since; `db` is the copy of the reader who replays all loot; `logical` is what the
      puts and removals alone amount to. */
  datatype World = World(s: Store, base: map<Id, Hash>, db: map<Id, Hash>, logical: map<Id, Hash>)

  function Replayed(db: map<Id, Hash>, loot: map<Id, Changes>): map<Id, Hash> {
    map id | id in db.Keys + loot.Keys :: if id in loot then Replay(HashOf(db, id), loot[id]) else db[id]
  }

  function Do(w: World, e: Event): World {
    match e
    case Put(id, f, v, how) =>
      w.(s := PutOne(w.s, id, f, v, how), logical := w.logical[id := HashOf(w.logical, id)[f := v]])
    case Remove(id, f) =>
      w.(s := RemoveOne(w.s, id, f),
         logical := if f in HashOf(w.s.cache, id) then w.logical[id := HashOf(w.logical, id) - {f}] else w.logical)
    case Clear(id) =>
      w.(s := ClearOne(w.s, id), base := if StatesOf(w.s.state, id) == map[] then w.base - {id} else w.base)
    case LootDirty =>
      w.(s := LootAll(w.s), base := w.s.cache, db := Replayed(w.db, Loot(w.s)))
    case Fetch(id, f, v) =>
      w.(s := w.s.(cache := w.s.cache[id := HashOf(w.s.cache, id)[f := v]]),
          base := w.base[id := HashOf(w.base, id)[f := v]])
  }

  /** A field is clean, or its pending change left it with this very value. */
  predicate Agrees(c: Changes, f: Field, v: Data) {
    f !in c.state || (c.state[f] != DELETED && f in c.dirty && c.dirty[f] == v)
  }

  /** A put is not marked as a removal, and a fetched value agrees with the pending changes. */
  predicate Allowed(w: World, e: Event) {
    && (e.Put? ==> e.how != DELETED)
    && (e.Fetch? ==> Agrees(Pending(w.s, e.id), e.f, e.v))
  }

  predicate Good(w: World, id: Id) {
    var p := Pending(w.s, id);
    && p.dirty.Keys == p.state.Keys
    && (id in w.s.registry <==> p.state != map[])
    && Replay(HashOf(w.base, id), p) == HashOf(w.s.cache, id)
    && Replay(HashOf(w.db, id), p) == HashOf(w.logical, id)
  }

  ghost predicate Inv(w: World) { forall id :: Good(w, id) }

  // ---------------------------------------------------------------- replaying

  lemma ReplayPut(base: Hash, c: Changes, f: Field, v: Data, how: int)
    requires how != DELETED && c.dirty.Keys == c.state.Keys
    ensures Replay(base, Changes(c.dirty[f := v], c.state[f := how])) == Replay(base, c)[f := v]
  {
  }

  lemma ReplayRemove(base: Hash, c: Changes, f: Field, v: Data)
    requires c.dirty.Keys == c.state.Keys
    ensures Replay(base, Changes(c.dirty[f := v], c.state[f := DELETED])) == Replay(base, c) - {f}
  {
  }

  lemma ReplayNothing(base: Hash)
    ensures Replay(base, Changes(map[], map[])) == base
  {
  }

  lemma ReplayFetch(base: Hash, c: Changes, f: Field, v: Data)
    requires c.dirty.Keys == c.state.Keys && f !in c.state
    ensures Replay(base[f := v], c) == Replay(base, c)[f := v]
  {
  }

  /** Writing a fetched value over the cache agrees with the pending changes exactly if the field is
      clean or was left with this very value. */
  lemma FetchAgrees(base: Hash, c: Changes, f: Field, v: Data)
    requires c.dirty.Keys == c.state.Keys
    ensures Replay(base[f := v], c) == Replay(base, c)[f := v] <==> Agrees(c, f, v)
  {
    var l, r := Replay(base[f := v], c), Replay(base, c)[f := v];
    assert f in r && r[f] == v;
    if f !in c.state {
      ReplayFetch(base, c, f, v);
    } else if c.state[f] != DELETED && c.dirty[f] == v {
      assert l == r;
    } else if c.state[f] == DELETED {
      assert f !in l;
    } else {
      assert l[f] == c.dirty[f];
    }
  }

  // ---------------------------------------------------------------- every step

  lemma PutKeeps(w: World, e: Event, id: Id)
    requires Good(w, id) && e.Put? && Allowed(w, e)
    ensures Good(Do(w, e), id)
  {
    hide Replay;
    var w' := Do(w, e);
    if id == e.id {
      var p := Pending(w.s, id);
      assert Pending(w'.s, id) == Changes(p.dirty[e.f := e.v], p.state[e.f := e.how]);
      assert HashOf(w'.s.cache, id) == HashOf(w.s.cache, id)[e.f := e.v]
        && HashOf(w'.logical, id) == HashOf(w.logical, id)[e.f := e.v];
      ReplayPut(HashOf(w.base, id), p, e.f, e.v, e.how);
      ReplayPut(HashOf(w.db, id), p, e.f, e.v, e.how);
      assert e.f in p.state[e.f := e.how];
    } else {
      assert Pending(w'.s, id) == Pending(w.s, id);
    }
  }

  lemma RemoveKeeps(w: World, e: Event, id: Id)
    requires Good(w, id) && e.Remove?
    ensures Good(Do(w, e), id)
  {
    hide Replay;
    var h, w' := HashOf(w.s.cache, e.id), Do(w, e);
    if id == e.id && e.f in h {
      var p := Pending(w.s, id);
      assert Pending(w'.s, id) == Changes(p.dirty[e.f := h[e.f]], p.state[e.f := DELETED]);
      assert HashOf(w'.s.cache, id) == h - {e.f} && HashOf(w'.logical, id) == HashOf(w.logical, id) - {e.f};
      ReplayRemove(HashOf(w.base, id), p, e.f, h[e.f]);
      ReplayRemove(HashOf(w.db, id), p, e.f, h[e.f]);
      assert e.f in p.state[e.f := DELETED];
    } else {
      assert Pending(w'.s, id) == Pending(w.s, id);
    }
  }

  lemma ClearKeeps(w: World, e: Event, id: Id)
    requires Good(w, id) && e.Clear?
    ensures Good(Do(w, e), id)
  {
    if id == e.id && StatesOf(w.s.state, id) == map[] {
      assert Pending(w.s, id).dirty == map[] by { assert Pending(w.s, id).dirty.Keys == {}; }
      ReplayNothing(HashOf(w.db, id));
      ReplayNothing(map[]);
    }
  }

  lemma LootKeeps(w: World, id: Id)
    requires Good(w, id)
    ensures Good(Do(w, LootDirty), id)
  {
    var p := Pending(w.s, id);
    if id !in w.s.registry {
      assert p.dirty == map[] by { assert p.dirty.Keys == {}; }
      ReplayNothing(HashOf(w.db, id));
    }
    ReplayNothing(HashOf(w.logical, id));
    ReplayNothing(HashOf(w.s.cache, id));
  }

  lemma FetchKeeps(w: World, e: Event, id: Id)
    requires Good(w, id) && e.Fetch? && Allowed(w, e)
    ensures Good(Do(w, e), id)
  {
    if id == e.id { FetchAgrees(HashOf(w.base, id), Pending(w.s, id), e.f, e.v); }
  }

  /** Every step keeps all caches in order. */
  lemma DoKeeps(w: World, e: Event)
    requires Inv(w) && Allowed(w, e)
    ensures Inv(Do(w, e))
  {
    hide Do, Allowed;
    forall id ensures Good(Do(w, e), id) {
      assert Good(w, id);
      match e
      case Put(_, _, _, _) => PutKeeps(w, e, id);
      case Remove(_, _) => RemoveKeeps(w, e, id);
      case Clear(_) => ClearKeeps(w, e, id);
      case LootDirty => LootKeeps(w, id);
      case Fetch(_, _, _) => FetchKeeps(w, e, id);
    }
  }

  /** The conditions are exact: a step that is not allowed leaves its cache out of order. */
  lemma AllowedIsExact(w: World, e: Event)
    requires Inv(w)
    ensures Inv(Do(w, e)) <==> Allowed(w, e)
  {
    if Allowed(w, e) {
      DoKeeps(w, e);
    } else {
      var p := Pending(w.s, e.id);
      assert Good(w, e.id);
      if e.Put? { PutBreaks(w, e); } else { FetchAgrees(HashOf(w.base, e.id), p, e.f, e.v); }
      assert !Good(Do(w, e), e.id);
    }
  }

  lemma PutBreaks(w: World, e: Event)
    requires e.Put? && e.how == DELETED
    ensures !Good(Do(w, e), e.id)
  {
    var w' := Do(w, e);
    assert e.f in HashOf(w'.s.cache, e.id);
    assert e.f !in Replay(HashOf(w'.base, e.id), Pending(w'.s, e.id));
  }

  function DoAll(w: World, es: seq<Event>): World {
    if es == [] then w else Do(DoAll(w, es[..|es| - 1]), es[|es| - 1])
  }

  predicate AllAllowed(w: World, es: seq<Event>) {
    es == [] || (AllAllowed(w, es[..|es| - 1]) && Allowed(DoAll(w, es[..|es| - 1]), es[|es| - 1]))
  }

  const EMPTY: World := World(Store(map[], map[], map[], {}), map[], map[], map[])

  /** Over any run: the dirty hash and the dirty-state hash have the same fields, a cache is
      registered exactly while it has changes, replaying them on what was looted last gives the
      cache, and replaying them on the reader's copy gives what was put and removed: no clear
      discards a change. */
  lemma {:induction false} RunKeeps(es: seq<Event>)
    requires AllAllowed(EMPTY, es)
    ensures Inv(DoAll(EMPTY, es))
    decreases |es|
  {
    hide Do, Allowed, Inv;
    if es == [] {
      EmptyIsGood();
    } else {
      RunKeeps(es[..|es| - 1]);
      DoKeeps(DoAll(EMPTY, es[..|es| - 1]), es[|es| - 1]);
    }
  }

  lemma EmptyIsGood()
    ensures Inv(EMPTY)
  {
    forall id ensures Good(EMPTY, id) { ReplayNothing(map[]); }
  }

  /** When everything is looted the reader has it all, and only then may a cache be cleared. */
  lemma LootedIsLogical(w: World, id: Id)
    requires Inv(w)
    ensures HashOf(Do(w, LootDirty).db, id) == HashOf(w.logical, id)
    ensures ClearOne(w.s, id) != w.s ==> HashOf(w.db, id) == HashOf(w.logical, id)
  {
    assert Good(w, id);
    var p := Pending(w.s, id);
    if p.state == map[] {
      assert p.dirty == map[] by { assert p.dirty.Keys == {}; }
      ReplayNothing(HashOf(w.db, id));
    }
  }

  // ---------------------------------------------------------------- what the scripts leave

  /** Nothing but cache `id` differs. */
  predicate OthersSame(s: Store, t: Store, id: Id) {
    && s.registry - {id} == t.registry - {id}
    && s.cache - {id} == t.cache - {id} && s.dirty - {id} == t.dirty - {id} && s.state - {id} == t.state - {id}
  }

  /** Nothing of a cache is pending. */
  predicate Clean(s: Store, id: Id) {
    && id !in s.registry
    && (id !in s.dirty || s.dirty[id] == map[]) && (id !in s.state || s.state[id] == map[])
  }

  /** Looted changes are gone from the server: none is registered, none is pending, and the caches
      are as they were. */
  lemma LootLeavesNothing(w: World)
    requires Inv(w)
    ensures var s := Do(w, LootDirty).s;
            s.registry == {} && s.cache == w.s.cache && forall id :: Clean(s, id)
  {
    forall id ensures Clean(Do(w, LootDirty).s, id) {
      assert Good(w, id);
      if id !in w.s.registry { assert Pending(w.s, id).dirty == map[] by { assert Pending(w.s, id).dirty.Keys == {}; } }
    }
  }

  /** What is looted: of every registered cache its pending fields and how they were left, and
      nothing of the others. */
  lemma LootTakesPending(s: Store, id: Id)
    ensures id in Loot(s) <==> id in s.registry
    ensures id in s.registry ==>
              && Loot(s)[id].dirty == (if id in s.dirty then s.dirty[id] else map[])
              && Loot(s)[id].state == (if id in s.state then s.state[id] else map[])
  {
  }

  /** Steps that change no field by a put or a removal. */
  predicate NoChanges(es: seq<Event>) { forall e | e in es :: !e.Put? && !e.Remove? }

  predicate AllClean(s: Store) { s.registry == {} && forall id | id in s.dirty.Keys + s.state.Keys :: Clean(s, id) }

  lemma CleanStays(w: World, e: Event)
    requires AllClean(w.s) && !e.Put? && !e.Remove?
    ensures AllClean(Do(w, e).s)
  {
    var s := Do(w, e).s;
    forall id | id in s.dirty.Keys + s.state.Keys ensures Clean(s, id) {
      assert id in w.s.dirty.Keys + w.s.state.Keys;
      assert Clean(w.s, id);
    }
  }

  lemma {:induction false} RunStaysClean(w: World, es: seq<Event>)
    requires AllClean(w.s) && NoChanges(es)
    ensures AllClean(DoAll(w, es).s)
    decreases |es|
  {
    hide Do, AllClean;
    if es != [] {
      var n := |es| - 1;
      assert forall e | e in es[..n] :: e in es;
      RunStaysClean(w, es[..n]);
      CleanStays(DoAll(w, es[..n]), es[n]);
    }
  }

  /** A change is looted once: a second loot with no put or removal in between finds nothing, and
      until then every clear succeeds and removes the cache. */
  lemma LootedOnce(w: World, es: seq<Event>, id: Id)
    requires Inv(w) && NoChanges(es)
    ensures var s := DoAll(Do(w, LootDirty), es).s;
            && Loot(s) == map[]
            && (id !in s.state || s.state[id] == map[])
            && var t := Do(DoAll(Do(w, LootDirty), es), Clear(id)).s;
               id !in t.cache && id !in t.dirty && id !in t.state && id !in t.registry
  {
    LootLeavesNothing(w);
    var v := Do(w, LootDirty);
    assert AllClean(v.s);
    RunStaysClean(v, es);
    var s := DoAll(v, es).s;
    assert Loot(s).Keys == {};
    if id in s.dirty.Keys + s.state.Keys { assert Clean(s, id); }
  }

  /** Clear removes a cache without changes, all its hashes and its registration, and no other; one
      with changes stays as it is. */
  lemma ClearRemoves(w: World, id: Id, other: Id)
    requires Inv(w)
    ensures var s := Do(w, Clear(id)).s;
            if id in w.s.state && w.s.state[id] != map[] then s == w.s
            else
              && id !in s.cache && id !in s.dirty && id !in s.state && id !in s.registry
              && OthersSame(w.s, s, id)
  {
    assert Good(w, id);
  }

  /** Remove takes the field out of the cache, keeps its last value pending, marked as deleted (2),
      and registers the cache; with a missing field nothing happens. */
  lemma RemoveRemoves(w: World, id: Id, f: Field)
    ensures var s := Do(w, Remove(id, f)).s;
            if id in w.s.cache && f in w.s.cache[id] then
              && (id in s.cache ==> s.cache[id] == w.s.cache[id] - {f})
              && (id !in s.cache <==> w.s.cache[id].Keys == {f})
              && id in s.dirty && s.dirty[id] == HashOf(w.s.dirty, id)[f := w.s.cache[id][f]]
              && id in s.state && f in s.state[id] && s.state[id][f] == 2
              && id in s.registry && OthersSame(w.s, s, id)
            else s == w.s
  {
    if id in w.s.cache && f in w.s.cache[id] { WithoutField(w.s.cache, id, f); }
  }

  lemma WithoutField(m: map<Id, Hash>, id: Id, f: Field)
    requires id in m && f in m[id]
    ensures var m' := Without(m, id, f);
            && (id in m' ==> m'[id] == m[id] - {f}) && (id !in m' <==> m[id].Keys == {f})
            && m' - {id} == m - {id}
  {
    var h := m[id] - {f};
    assert h.Keys == m[id].Keys - {f};
    assert h == map[] <==> h.Keys == {};
  }

  // ---------------------------------------------------------------- the scripts

  /** A value was put: of this cache, replaying the pending changes on what was looted last gives the
      old contents with the value, on the reader's copy what was put and removed before with the
      value; the field is marked, and the cache is registered. */
  predicate IsPut(w: World, w': World, id: Id, f: Field, v: Data, how: int) {
    var p := Pending(w'.s, id);
    && Replay(HashOf(w.base, id), p) == HashOf(w'.s.cache, id) == HashOf(w.s.cache, id)[f := v]
    && Replay(HashOf(w.db, id), p) == HashOf(w.logical, id)[f := v]
    && f in p.state && p.state[f] == how && id in w'.s.registry && OthersSame(w.s, w'.s, id)
  }

  lemma PutPuts(w: World, id: Id, f: Field, v: Data, how: int)
    requires Inv(w) && how != DELETED
    ensures Inv(Do(w, Put(id, f, v, how))) && IsPut(w, Do(w, Put(id, f, v, how)), id, f, v, how)
  {
    hide Replay;
    DoKeeps(w, Put(id, f, v, how));
    assert Good(Do(w, Put(id, f, v, how)), id);
  }

  /** The server with its scripts.  Its history is kept beside it: what each cache held when it was
      last looted, the reader's copy, and what was put and removed. */
  class CacheServer {
    var cache: map<Id, Hash>
    var dirty: map<Id, Hash>
    var state: map<Id, States>
    var registry: set<Id>
    ghost var base: map<Id, Hash>
    ghost var db: map<Id, Hash>
    ghost var logical: map<Id, Hash>

    ghost function W(): World
      reads this
    {
      World(Store(cache, dirty, state, registry), base, db, logical)
    }

    ghost predicate Valid()
      reads this
    {
      Inv(W())
    }

    constructor ()
      ensures Valid() && W() == EMPTY
    {
      cache, dirty, state, registry := map[], map[], map[], {};
      base, db, logical := map[], map[], map[];
      EmptyIsGood();
    }

    /** The Add script. */
    method AddToHashTable(id: Id, f: Field, v: Data)
      modifies this
      ensures W() == Do(old(W()), Put(id, f, v, ADDED))
      ensures old(Valid()) ==> Valid() && IsPut(old(W()), W(), id, f, v, ADDED)
    {
      if Valid() { PutPuts(W(), id, f, v, ADDED); }
      cache := cache[id := HashOf(cache, id)[f := v]];
      dirty := dirty[id := HashOf(dirty, id)[f := v]];
      state := state[id := StatesOf(state, id)[f := ADDED]];
      registry := registry + {id};
      logical := logical[id := HashOf(logical, id)[f := v]];
    }

    /** The Update script. */
    method UpdateToHashTable(id: Id, f: Field, v: Data)
      modifies this
      ensures W() == Do(old(W()), Put(id, f, v, MODIFIED))
      ensures old(Valid()) ==> Valid() && IsPut(old(W()), W(), id, f, v, MODIFIED)
    {
      if Valid() { PutPuts(W(), id, f, v, MODIFIED); }
      cache := cache[id := HashOf(cache, id)[f := v]];
      dirty := dirty[id := HashOf(dirty, id)[f := v]];
      state := state[id := StatesOf(state, id)[f := MODIFIED]];
      registry := registry + {id};
      logical := logical[id := HashOf(logical, id)[f := v]];
    }

    /** The Remove script: HSET refuses the value of a missing field. */
    method RemoveFromHashTable(id: Id, f: Field) returns (ok: bool)
      modifies this
      ensures W() == Do(old(W()), Remove(id, f)) && (ok <==> f in HashOf(old(cache), id))
      ensures old(Valid()) ==> Valid()
    {
      if Valid() { DoKeeps(W(), Remove(id, f)); }
      var h := HashOf(cache, id);
      ok := f in h;
      cache := Without(cache, id, f);
      if !ok { return; }
      dirty := dirty[id := HashOf(dirty, id)[f := h[f]]];
      state := state[id := StatesOf(state, id)[f := DELETED]];
      registry := registry + {id};
      logical := logical[id := HashOf(logical, id) - {f}];
    }

    /** The Clear script. */
    method Clear(id: Id) returns (ok: bool)
      modifies this
      ensures W() == Do(old(W()), Event.Clear(id)) && (ok <==> StatesOf(old(state), id) == map[])
      ensures old(Valid()) ==> Valid() && (ok ==> HashOf(db, id) == HashOf(logical, id))
    {
      hide Inv, HashOf;
      ghost var w := W();
      if Inv(w) {
        DoKeeps(w, Event.Clear(id));
        if StatesOf(w.s.state, id) == map[] { CleanIsLooted(w, id); }
      }
      ok := |StatesOf(state, id)| == 0;
      if ok {
        registry := registry - {id};
        state := state - {id};
        dirty := dirty - {id};
        cache := cache - {id};
        base := base - {id};
      }
    }

    /** The Loot script. */
    method LootDirtyEntry() returns (r: map<Id, Changes>)
      modifies this
      ensures W() == Do(old(W()), LootDirty) && r == Loot(old(W()).s)
      ensures registry == {} && cache == old(cache)
      ensures old(Valid()) ==> forall id :: Clean(W().s, id) && HashOf(db, id) == HashOf(logical, id)
      ensures old(Valid()) ==> Valid()
    {
      ghost var w := W();
      r := map[];
      var e := registry;
      registry := {};
      ghost var taken: set<Id>, s := {}, w.s;
      while e != {}
        invariant e !! taken && e + taken == s.registry && registry == {} && cache == s.cache
        invariant base == w.base && db == w.db && logical == w.logical
        invariant dirty == s.dirty - taken && state == s.state - taken
        invariant r == map id | id in taken :: Pending(s, id)
        decreases e
      {
        var id :| id in e;
        assert Changes(HashOf(dirty, id), StatesOf(state, id)) == Pending(s, id);
        hide HashOf, StatesOf;
        e := e - {id};
        r := r[id := Changes(HashOf(dirty, id), StatesOf(state, id))];
        dirty := dirty - {id};
        state := state - {id};
        taken := taken + {id};
      }
      base, db := cache, Replayed(db, r);
      hide Replayed, Inv, HashOf, Clean;
      assert W() == Do(w, LootDirty);
      if Inv(w) { LootServes(w); }
    }

    /** A plain HSET, by which values are fetched into the cache: it keeps the caches in order
        exactly if the value agrees with the pending changes. */
    method SetToHashTable(id: Id, f: Field, v: Data)
      modifies this
      ensures W() == Do(old(W()), Fetch(id, f, v)) && HashOf(cache, id) == HashOf(old(cache), id)[f := v]
      ensures old(Valid()) ==> (Valid() <==> Agrees(old(Pending(W().s, id)), f, v))
    {
      if Valid() { AllowedIsExact(W(), Fetch(id, f, v)); }
      cache := cache[id := HashOf(cache, id)[f := v]];
      base := base[id := HashOf(base, id)[f := v]];
    }
  }

  lemma LootServes(w: World)
    requires Inv(w)
    ensures var w' := Do(w, LootDirty);
            Inv(w') && forall id :: Clean(w'.s, id) && HashOf(w'.db, id) == HashOf(w'.logical, id)
  {
    hide Do, Inv, Clean, HashOf;
    DoKeeps(w, LootDirty);
    LootLeavesNothing(w);
    LootKeepsLogical(w);
    forall id ensures HashOf(Do(w, LootDirty).db, id) == HashOf(Do(w, LootDirty).logical, id) {
      LootedIsLogical(w, id);
    }
  }

  lemma LootKeepsLogical(w: World)
    ensures Do(w, LootDirty).logical == w.logical
  {
  }

  lemma CleanIsLooted(w: World, id: Id)
    requires Inv(w) && StatesOf(w.s.state, id) == map[]
    ensures HashOf(w.db, id) == HashOf(w.logical, id)
  {
    assert Good(w, id);
    assert Pending(w.s, id).dirty == map[] by { assert Pending(w.s, id).dirty.Keys == {}; }
    ReplayNothing(HashOf(w.db, id));
  }
}
