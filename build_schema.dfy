/**
 * `build_schema(schema_class, *models, **extra_fields)`: the keyword
 * arguments the response schema is built from.
 *
 * A model is either an object with a `__dict__`, whose attributes are
 * given as a map, or a value without one.  Building the pydantic instance
 * from the combined dictionary is not part of this model.
 */
module Schema {
  import opened Text

  datatype Model<V> = NoDict | WithDict(attrs: map<string, V>)

  /** The attributes `build_schema` copies: those whose names do not start with "_". */
  function Public<V>(attrs: map<string, V>): (m: map<string, V>)
    ensures forall k :: k in m <==> k in attrs && !StartsWith(k, "_")
    ensures forall k :: k in m ==> m[k] == attrs[k]
  {
    map k | k in attrs && !StartsWith(k, "_") :: attrs[k]
  }

  /** What one model adds to the combined dictionary. */
  function Contribution<V>(model: Model<V>): map<string, V>
  {
    match model
    case NoDict => map[]
    case WithDict(attrs) => Public(attrs)
  }

  /** The combined dictionary after the loop over `models`, one `update` per model in order. */
  function Combined<V>(models: seq<Model<V>>): map<string, V>
  {
    if |models| == 0 then map[]
    else Combined(models[..|models| - 1]) + Contribution(models[|models| - 1])
  }

  /** The loop of `build_schema`, followed by the update with the extra fields. */
  method BuildSchema<V>(models: seq<Model<V>>, extra: map<string, V>) returns (combined: map<string, V>)
    ensures combined == Combined(models) + extra
  {
    combined := map[];
    for i := 0 to |models|
      invariant combined == Combined(models[..i])
    {
      assert models[..i + 1][..i] == models[..i];
      if models[i].WithDict? {
        combined := combined + Public(models[i].attrs);
      }
    }
    assert models[..|models|] == models;
    combined := combined + extra;
  }

  /** The names some model with a `__dict__` has and that do not start with "_". */
  ghost function PublicNames<V>(models: seq<Model<V>>): set<string>
  {
    set i, k | 0 <= i < |models| && models[i].WithDict? && k in models[i].attrs && !StartsWith(k, "_") :: k
  }

  /** The combined dictionary holds exactly the public names of the models with a `__dict__`. */
  lemma {:induction false} CombinedKeys<V>(models: seq<Model<V>>)
    ensures Combined(models).Keys == PublicNames(models)
  {
    if |models| > 0 {
      var n := |models| - 1;
      var init := models[..n];
      CombinedKeys(init);
      forall k | k in PublicNames(models) ensures k in Combined(models) {
        var i :| 0 <= i < |models| && models[i].WithDict? && k in models[i].attrs && !StartsWith(k, "_");
        if i < n {
          assert init[i] == models[i];
        }
      }
      forall k | k in Combined(models) ensures k in PublicNames(models) {
        if k in Combined(init) {
          var i :| 0 <= i < |init| && init[i].WithDict? && k in init[i].attrs && !StartsWith(k, "_");
          assert models[i] == init[i];
        }
      }
    }
  }

  /**
   * The result's names are the models' public names and the extra names;
   * a name starting with "_" is there only when it is an extra field, and
   * an extra field overrides every model.
   */
  lemma BuildSchemaKeys<V>(models: seq<Model<V>>, extra: map<string, V>)
    ensures (Combined(models) + extra).Keys == PublicNames(models) + extra.Keys
    ensures forall k :: StartsWith(k, "_") ==> (k in Combined(models) + extra <==> k in extra)
    ensures forall k :: k in extra ==> (Combined(models) + extra)[k] == extra[k]
  {
    CombinedKeys(models);
  }

  /**
   * On a name several models share, the value of the last model having it
   * wins.
   */
  lemma {:induction false} LaterWins<V>(models: seq<Model<V>>, j: nat, k: string)
    requires j < |models| && models[j].WithDict? && k in models[j].attrs && !StartsWith(k, "_")
    requires forall i :: j < i < |models| ==> k !in Contribution(models[i])
    ensures k in Combined(models) && Combined(models)[k] == models[j].attrs[k]
  {
    var n := |models| - 1;
    if j < n {
      var init := models[..n];
      forall i | j < i < |init| ensures k !in Contribution(init[i]) {
        assert init[i] == models[i];
      }
      LaterWins(init, j, k);
    }
  }

  /** A model without `__dict__` adds nothing, wherever it stands. */
  lemma {:induction false} NoDictAddsNothing<V>(front: seq<Model<V>>, back: seq<Model<V>>)
    ensures Combined(front + [NoDict] + back) == Combined(front + back)
    decreases |back|
  {
    if back == [] {
      assert (front + [NoDict])[..|front|] == front;
      assert front + [] == front;
      assert front + [NoDict] + [] == front + [NoDict];
    } else {
      var n := |back| - 1;
      NoDictAddsNothing(front, back[..n]);
      assert (front + [NoDict] + back)[..|front| + 1 + n] == front + [NoDict] + back[..n];
      assert (front + back)[..|front| + n] == front + back[..n];
    }
  }
}
