/**
 * The in-memory model store: a table from model type to an inner table from
 * identifier to DSL element, updated in place by `put` and `clear` and read
 * by `get`. Each inner JavaScript `Map` is kept as its entries in insertion
 * order, which is the order `Map.prototype.values` yields them in.
 */
module ModelStore {
  import opened Wrappers

  /** A DSL element; the constructor is its `type` discriminant. */
  datatype ExprDsl = Load(identifier: string, body: string) | Task(identifier: string)

  function TranspileLoadOne(): ExprDsl { Load("TestLoad", "One") }
  function TranspileLoadTwo(): ExprDsl { Load("TestLoad", "Two") }
  function TranspileTask(): ExprDsl { Task("TestTask") }

  /** What `put` is given: the model type to file the element under, and the element. */
  datatype DslModel = DslModel(modelType: string, data: ExprDsl)

  datatype Entry = Entry(key: string, value: ExprDsl)

  /** A `Map<string, ExprDsl>`, as its entries in insertion order. */
  type Entries = seq<Entry>

  /** A `Map<ModelType, Map<string, ExprDsl>>`. */
  type State = map<string, Entries>

  function Keys(es: Entries): seq<string>
  {
    seq(|es|, i requires 0 <= i < |es| => es[i].key)
  }

  /** `Array.from(map.values())`. */
  function Values(es: Entries): seq<ExprDsl>
  {
    seq(|es|, i requires 0 <= i < |es| => es[i].value)
  }

  /** A `Map` never holds the same key twice. */
  predicate DistinctKeys(es: Entries)
  {
    forall i, j :: 0 <= i < j < |es| ==> es[i].key != es[j].key
  }

  predicate WellFormed(state: State)
  {
    forall t :: t in state ==> DistinctKeys(state[t])
  }

  /** `map.get(k)`. */
  function Lookup(es: Entries, k: string): (r: Option<ExprDsl>)
    ensures r.Some? <==> k in Keys(es)
    ensures r.Some? ==> exists i :: 0 <= i < |es| && es[i] == Entry(k, r.value)
    decreases |es|
  {
    if es == [] then None
    else if es[0].key == k then
      assert Keys(es)[0] == k;
      Some(es[0].value)
    else
      assert Keys(es) == [es[0].key] + Keys(es[1..]);
      Lookup(es[1..], k)
  }

  /**
   * `map.set(k, v)`: a key already present keeps its position and gets the
   * new value; a new key goes to the end.
   */
  function MapSet(es: Entries, k: string, v: ExprDsl): (r: Entries)
    requires DistinctKeys(es)
    ensures DistinctKeys(r)
    ensures forall i :: 0 <= i < |es| && es[i].key == k ==> r == es[i := Entry(k, v)]
    ensures k !in Keys(es) ==> r == es + [Entry(k, v)]
    decreases |es|
  {
    if es == [] then [Entry(k, v)]
    else if es[0].key == k then
      assert Keys(es)[0] == k;
      [Entry(k, v)] + es[1..]
    else
      var rest := MapSet(es[1..], k, v);
      assert forall i :: 1 <= i < |es| ==> es[1..][i - 1] == es[i];
      assert Keys(es[1..]) == Keys(es)[1..];
      [es[0]] + rest
  }

  /** `mapInstance.get(t)`, with `undefined` for a type that is not there. */
  function MapGet(state: State, t: string): Option<Entries>
  {
    if t in state then Some(state[t]) else None
  }

  /** `mapInstance.get(t) ?? new Map()`. */
  function EntriesOf(state: State, t: string): (r: Entries)
    ensures t !in state ==> r == []
    ensures WellFormed(state) ==> DistinctKeys(r)
  {
    if t in state then state[t] else []
  }

  /** The three predicates that steer `get`; each returns `true`. */
  function PredicateOne(): bool { true }
  function PredicateTwo(): bool { true }
  function PredicateThree(): bool { true }

  /**
   * `rawEntriesOfType` inside `get`. Its second branch would yield `undefined`
   * for an unknown type (and make `get` fail), but the guard always holds, so
   * the `?? new Map()` branch is the one taken.
   */
  function RawEntriesOfType(state: State, t: string): (r: Option<Entries>)
    ensures r == Some(EntriesOf(state, t))
  {
    if PredicateTwo() && (PredicateOne() || PredicateThree()) then Some(EntriesOf(state, t))
    else MapGet(state, t)
  }

  /** The table after `put(model)`. */
  function PutState(state: State, model: DslModel): (s: State)
    requires WellFormed(state)
    ensures WellFormed(s)
    ensures s.Keys == state.Keys + {model.modelType}
    ensures forall t :: t in state && t != model.modelType ==> s[t] == state[t]
  {
    state[model.modelType := MapSet(EntriesOf(state, model.modelType), model.data.identifier, model.data)]
  }

  /** A key just set reads back as the value set; every other key reads as before. */
  lemma {:induction false} LookupAfterMapSet(es: Entries, k: string, v: ExprDsl, k': string)
    requires DistinctKeys(es)
    ensures Lookup(MapSet(es, k, v), k') == if k' == k then Some(v) else Lookup(es, k')
    decreases |es|
  {
    if es != [] && es[0].key != k {
      LookupAfterMapSet(es[1..], k, v, k');
      assert MapSet(es, k, v)[1..] == MapSet(es[1..], k, v);
    }
  }

  /** Setting a key keeps the order of the keys: a new key is appended, an existing one keeps its slot. */
  lemma KeysAfterMapSet(es: Entries, k: string, v: ExprDsl)
    requires DistinctKeys(es)
    ensures Keys(MapSet(es, k, v)) == if k in Keys(es) then Keys(es) else Keys(es) + [k]
  {
  }

  /** In a map, the value at each position is what looking up that position's key gives. */
  lemma {:induction false} LookupAt(es: Entries, i: nat)
    requires DistinctKeys(es) && i < |es|
    ensures Lookup(es, es[i].key) == Some(es[i].value)
    decreases i
  {
    if i > 0 {
      LookupAt(es[1..], i - 1);
    }
  }

  /**
   * After `put(model)`, `get(model.modelType)` holds `model.data` under its
   * identifier, and every other type's entries are unchanged.
   */
  lemma PutThenGet(state: State, model: DslModel, t: string)
    requires WellFormed(state)
    ensures var after := EntriesOf(PutState(state, model), model.modelType);
            Lookup(after, model.data.identifier) == Some(model.data) && model.data in Values(after)
    ensures t != model.modelType ==> EntriesOf(PutState(state, model), t) == EntriesOf(state, t)
  {
    var es := EntriesOf(state, model.modelType);
    var after := MapSet(es, model.data.identifier, model.data);
    LookupAfterMapSet(es, model.data.identifier, model.data, model.data.identifier);
    assert EntriesOf(PutState(state, model), model.modelType) == after;
    var i :| 0 <= i < |after| && after[i] == Entry(model.data.identifier, model.data);
    assert Values(after)[i] == model.data;
  }

  /** `get` on a cleared store, or for a type never put, gives no elements. */
  lemma GetOfMissingTypeIsEmpty(state: State, t: string)
    requires t !in state
    ensures Values(EntriesOf(state, t)) == []
    ensures Values(EntriesOf(map[], t)) == []
  {
  }

  /** The table after putting each of `puts`, in order, into an empty store. */
  function Replay(puts: seq<DslModel>): (state: State)
    ensures WellFormed(state)
  {
    if puts == [] then map[] else PutState(Replay(puts[..|puts| - 1]), puts[|puts| - 1])
  }

  /** The identifiers of the elements put under type `t`, in order, repetitions included. */
  function IdsOfType(puts: seq<DslModel>, t: string): seq<string>
  {
    if puts == [] then []
    else
      var last := puts[|puts| - 1];
      IdsOfType(puts[..|puts| - 1], t) + (if last.modelType == t then [last.data.identifier] else [])
  }

  /** The element of the last put of identifier `id` under type `t`, if there was one. */
  function LastPut(puts: seq<DslModel>, t: string, id: string): Option<ExprDsl>
  {
    if puts == [] then None
    else
      var last := puts[|puts| - 1];
      if last.modelType == t && last.data.identifier == id then Some(last.data)
      else LastPut(puts[..|puts| - 1], t, id)
  }

  /** `ids` with every occurrence of `x` removed. */
  function Without(ids: seq<string>, x: string): (r: seq<string>)
    ensures |r| <= |ids|
    ensures forall y :: y in r <==> y in ids && y != x
  {
    if ids == [] then [] else (if ids[0] == x then [] else [ids[0]]) + Without(ids[1..], x)
  }

  /** Each identifier of `ids` once, in the order of first occurrence. */
  function FirstOccurrences(ids: seq<string>): seq<string>
    decreases |ids|
  {
    if ids == [] then [] else [ids[0]] + FirstOccurrences(Without(ids[1..], ids[0]))
  }

  lemma {:induction false} WithoutSnoc(ids: seq<string>, x: string, y: string)
    ensures Without(ids + [x], y) == Without(ids, y) + (if x == y then [] else [x])
    decreases |ids|
  {
    if ids == [] {
      assert Without([x], y) == (if x == y then [] else [x]) + Without([], y);
    } else {
      WithoutSnoc(ids[1..], x, y);
      assert (ids + [x])[1..] == ids[1..] + [x];
    }
  }

  lemma {:induction false} FirstOccurrencesMembers(ids: seq<string>)
    ensures forall x :: x in FirstOccurrences(ids) <==> x in ids
    decreases |ids|
  {
    if ids != [] {
      FirstOccurrencesMembers(Without(ids[1..], ids[0]));
      assert ids == [ids[0]] + ids[1..];
    }
  }

  /** Appending an identifier adds it at the end unless it already occurred. */
  lemma {:induction false} FirstOccurrencesSnoc(ids: seq<string>, x: string)
    ensures FirstOccurrences(ids + [x]) == if x in ids then FirstOccurrences(ids) else FirstOccurrences(ids) + [x]
    decreases |ids|
  {
    if ids == [] {
      assert FirstOccurrences([x]) == [x] + FirstOccurrences(Without([], x));
    } else {
      var y := ids[0];
      assert (ids + [x])[0] == y && (ids + [x])[1..] == ids[1..] + [x];
      WithoutSnoc(ids[1..], x, y);
      if x != y {
        FirstOccurrencesSnoc(Without(ids[1..], y), x);
        assert ids == [y] + ids[1..];
      } else {
        assert Without(ids[1..] + [x], y) == Without(ids[1..], y);
        assert x in ids;
      }
    }
  }

  /**
   * After any sequence of puts into an empty store, the entries under a type
   * hold each identifier put under it exactly once, in the order the
   * identifiers were first put, and each with the element put last for it.
   */
  lemma {:induction false} ReplayEntries(puts: seq<DslModel>, t: string)
    ensures Keys(EntriesOf(Replay(puts), t)) == FirstOccurrences(IdsOfType(puts, t))
    ensures forall id :: Lookup(EntriesOf(Replay(puts), t), id) == LastPut(puts, t, id)
    decreases |puts|
  {
    if puts != [] {
      var init, p := puts[..|puts| - 1], puts[|puts| - 1];
      ReplayEntries(init, t);
      var es := EntriesOf(Replay(init), t);
      var after := EntriesOf(Replay(puts), t);
      if p.modelType == t {
        var id0 := p.data.identifier;
        assert after == MapSet(es, id0, p.data);
        assert IdsOfType(puts, t) == IdsOfType(init, t) + [id0];
        KeysAfterMapSet(es, id0, p.data);
        FirstOccurrencesMembers(IdsOfType(init, t));
        FirstOccurrencesSnoc(IdsOfType(init, t), id0);
        forall id ensures Lookup(after, id) == LastPut(puts, t, id) {
          LookupAfterMapSet(es, id0, p.data, id);
        }
      } else {
        assert after == es;
        assert IdsOfType(puts, t) == IdsOfType(init, t);
        assert forall id :: LastPut(puts, t, id) == LastPut(init, t, id);
      }
    }
  }

  /**
   * What `get(t)` returns after any sequence of puts into an empty store:
   * one element per distinct identifier, in first-insertion order, each the
   * element last put for that identifier.
   */
  lemma GetAfterPuts(puts: seq<DslModel>, t: string)
    ensures var got := Values(EntriesOf(Replay(puts), t));
            var ids := FirstOccurrences(IdsOfType(puts, t));
            |got| == |ids| && forall i :: 0 <= i < |ids| ==> LastPut(puts, t, ids[i]) == Some(got[i])
  {
    ReplayEntries(puts, t);
    var es := EntriesOf(Replay(puts), t);
    forall i | 0 <= i < |es| ensures LastPut(puts, t, Keys(es)[i]) == Some(Values(es)[i]) {
      LookupAt(es, i);
    }
  }

  class InMemoryModelStore {
    /** The map the store was created over; `put` and `clear` change it in place. */
    var mapInstance: State

    ghost predicate Valid()
      reads this
    {
      WellFormed(mapInstance)
    }

    /** `createInMemoryModelStore(mapInstance)`. */
    constructor (initial: State)
      requires WellFormed(initial)
      ensures Valid() && mapInstance == initial
    {
      mapInstance := initial;
    }

    method Put(model: DslModel) returns (r: Either<bool>)
      requires Valid()
      modifies this
      ensures Valid()
      ensures r == Right(true)
      ensures mapInstance == PutState(old(mapInstance), model)
    {
      var innerMap := EntriesOf(mapInstance, model.modelType);
      innerMap := MapSet(innerMap, model.data.identifier, model.data);
      mapInstance := mapInstance[model.modelType := innerMap];
      r := Right(true);
    }

    /** `get(t)`: the elements filed under `t`, in insertion order; never a failure. */
    method Get(t: string) returns (r: Either<seq<ExprDsl>>)
      ensures r == Right(Values(EntriesOf(mapInstance, t)))
    {
      var raw := RawEntriesOfType(mapInstance, t);
      match raw
      case None =>
        r := Left("TypeError: Cannot read properties of undefined (reading 'values')");
      case Some(entries) =>
        r := Right(Values(entries));
    }

    method Clear() returns (r: Either<bool>)
      modifies this
      ensures Valid()
      ensures r == Right(true)
      ensures mapInstance == map[]
    {
      mapInstance := map[];
      r := Right(true);
    }
  }

  /**
   * A store over an empty map: `transpileLoadOne` then `transpileLoadTwo`
   * under one type leave a single entry, the second; a task under another
   * type is kept apart; after `clear` nothing is left.
   */
  method StoreScenario() returns (loads: Either<seq<ExprDsl>>, tasks: Either<seq<ExprDsl>>, cleared: Either<seq<ExprDsl>>)
    ensures loads == Right([TranspileLoadTwo()])
    ensures tasks == Right([TranspileTask()])
    ensures cleared == Right([])
  {
    var one, two, task := TranspileLoadOne(), TranspileLoadTwo(), TranspileTask();
    var store := new InMemoryModelStore(map[]);
    var ok := store.Put(DslModel("Load", one));
    assert Keys([]) == [];
    assert store.mapInstance == map["Load" := [Entry("TestLoad", one)]];
    ok := store.Put(DslModel("Task", task));
    assert store.mapInstance["Task"] == [Entry("TestTask", task)];
    ok := store.Put(DslModel("Load", two));
    assert store.mapInstance["Load"] == [Entry("TestLoad", one)][0 := Entry("TestLoad", two)] == [Entry("TestLoad", two)];
    loads := store.Get("Load");
    assert Values([Entry("TestLoad", two)]) == [two];
    tasks := store.Get("Task");
    assert Values([Entry("TestTask", task)]) == [task];
    ok := store.Clear();
    cleared := store.Get("Load");
    assert Values([]) == [];
  }
}
