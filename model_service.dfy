/**
 * The sample app's in-memory store (`ModelServiceBase<TModel>`): models
 * kept in a dictionary under their id, with get, upsert and filter-query.
 */
module ModelService {
  import opened Wrappers

  class ModelServiceBase<TModel(==)> {
    /** The `Id` property of a model. */
    const idOf: TModel -> string
    /** The `Data` dictionary. */
    var data: map<string, TModel>

    constructor(idOf: TModel -> string)
      ensures this.idOf == idOf && data == map[]
    {
      this.idOf := idOf;
      data := map[];
    }

    /** The model stored under `id`; an id never stored is a not-found failure. */
    method GetAsync(id: string) returns (r: Result<TModel>)
      ensures r.Success? <==> id in data
      ensures r.Success? ==> r.value == data[id]
      ensures r.Failure? ==> r.error == KeyNotFound
    {
      if id !in data {
        return Failure(KeyNotFound);
      }
      r := Success(data[id]);
    }

    /** Stores `model` under its id, replacing what was there; every other entry stays. */
    method UpsertAsync(model: TModel)
      modifies this`data
      ensures data == old(data)[idOf(model) := model]
      ensures idOf(model) in data && data[idOf(model)] == model
      ensures forall id :: id != idOf(model) ==> (id in data <==> id in old(data))
      ensures forall id :: id != idOf(model) && id in old(data) ==> data[id] == old(data)[id]
    {
      data := data[idOf(model) := model];
    }

    /** Reading a model back by its id right after storing it gives that model. */
    method UpsertThenGet(model: TModel) returns (r: Result<TModel>)
      modifies this`data
      ensures r == Success(model)
    {
      UpsertAsync(model);
      r := GetAsync(idOf(model));
    }

    /**
     * The stored models that satisfy `filter` (all of them without one),
     * once per entry, in an unspecified order: `keys` names, position by
     * position, the entry each result comes from.
     */
    method QueryAsync(filter: Option<TModel -> bool>) returns (r: seq<TModel>, ghost keys: seq<string>)
      ensures |keys| == |r|
      ensures forall i, j :: 0 <= i < j < |keys| ==> keys[i] != keys[j]
      ensures forall i :: 0 <= i < |keys| ==> keys[i] in data && r[i] == data[keys[i]]
      ensures forall id :: id in data ==>
                (id in keys <==> filter.None? || filter.value(data[id]))
      ensures forall i :: 0 <= i < |r| ==> filter.None? || filter.value(r[i])
      ensures forall id :: id in data && (filter.None? || filter.value(data[id])) ==> data[id] in r
    {
      r := [];
      keys := [];
      var remaining := data.Keys;
      ghost var visited: set<string> := {};
      while remaining != {}
        invariant remaining !! visited && remaining + visited == data.Keys
        invariant |keys| == |r|
        invariant forall i, j :: 0 <= i < j < |keys| ==> keys[i] != keys[j]
        invariant forall i :: 0 <= i < |keys| ==> keys[i] in visited && r[i] == data[keys[i]]
        invariant forall id :: id in visited ==>
                    (id in keys <==> filter.None? || filter.value(data[id]))
        decreases remaining
      {
        var id :| id in remaining;
        if filter.None? || filter.value(data[id]) {
          r := r + [data[id]];
          keys := keys + [id];
        }
        remaining := remaining - {id};
        visited := visited + {id};
      }
      forall id | id in data && (filter.None? || filter.value(data[id]))
        ensures data[id] in r
      {
        var i :| 0 <= i < |keys| && keys[i] == id;
        assert r[i] == data[id];
      }
    }
  }

  /**
   * A query result is never larger than the store: its entries come from
   * distinct keys of the store.
   */
  lemma QueryNeverLarger<TModel>(r: seq<TModel>, keys: seq<string>, data: map<string, TModel>)
    requires |keys| == |r|
    requires forall i, j :: 0 <= i < j < |keys| ==> keys[i] != keys[j]
    requires forall i :: 0 <= i < |keys| ==> keys[i] in data
    ensures |r| <= |data|
  {
    DistinctKeysBound(keys, data.Keys);
  }

  /** A sequence of distinct members of `s` is no longer than `s` has elements. */
  lemma {:induction false} DistinctKeysBound(keys: seq<string>, s: set<string>)
    requires forall i, j :: 0 <= i < j < |keys| ==> keys[i] != keys[j]
    requires forall i :: 0 <= i < |keys| ==> keys[i] in s
    ensures |keys| <= |s|
    decreases |keys|
  {
    if |keys| > 0 {
      var last := keys[|keys| - 1];
      var front := keys[..|keys| - 1];
      assert forall i :: 0 <= i < |front| ==> front[i] == keys[i];
      assert last !in front;
      DistinctKeysBound(front, s - {last});
    }
  }
}
