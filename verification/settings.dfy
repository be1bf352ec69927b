/**
 * The settings form: a new configuration's defaults, the editable rows the
 * custom parameters are shown as, validation on save, and the conversion of
 * the rows back into the parameter object.
 */
module Settings {
  import opened Wrappers
  import opened Record
  import opened Json
  import opened ConfigStore
  import Text

  /** One editable custom-parameter row.  `kind` is the `typeof` of the value it
      was made from ("string", "number", "boolean", or "object" for nested values
      and null) or the type picked in the form. */
  datatype ParamRow = ParamRow(key: string, value: string, kind: string)

  const DefaultContextWindow := 4096

  /** `handleNewConfig`: empty required fields, a 4096-token window, no custom
      parameters and no network options.  `id` is the clock reading
      `Date.now().toString()`. */
  function NewConfig(id: string): (c: ApiConfig)
    ensures c.id == id && c.contextWindow == DefaultContextWindow
    ensures c.providerName == "" && c.baseUrl == "" && c.apiKey == "" && c.modelName == ""
    ensures c.customParams == [] && c.customHeaders == []
    ensures !c.ignoreSsl && c.proxyUrl == "" && c.caCertPath == ""
  {
    ApiConfig(id, "", "", "", "", DefaultContextWindow, [], false, [], "", "")
  }

  /** `handleEditConfig`: one row per property, in order, with `String(value)`
      and `typeof value`. */
  function RowsOf(params: Fields<Json>, codec: Codec): (rows: seq<ParamRow>)
    ensures |rows| == |params|
    ensures forall i :: 0 <= i < |params| ==>
              rows[i].key == params[i].0 && rows[i].value == StringOf(params[i].1, codec)
              && rows[i].kind == TypeOf(params[i].1)
  {
    seq(|params|, i requires 0 <= i < |params| => ParamRow(params[i].0, StringOf(params[i].1, codec), TypeOf(params[i].1)))
  }

  /** The value a row is saved as: `parseFloat(value) || 0` for numbers (`None`
      stands for NaN), `value === 'true'` for booleans, the text otherwise. */
  function RowValue(row: ParamRow, parseNumber: string -> Option<real>): (v: Json)
    ensures row.kind == "number" ==> v == JNum(parseNumber(row.value).GetOr(0.0))
    ensures row.kind == "boolean" ==> v == JBool(row.value == "true")
    ensures row.kind != "number" && row.kind != "boolean" ==> v == JStr(row.value)
  {
    if row.kind == "number" then
      match parseNumber(row.value)
      case Some(n) => JNum(n)
      case None => JNum(0.0)
    else if row.kind == "boolean" then JBool(row.value == "true")
    else JStr(row.value)
  }

  /** The inherited accessor of every plain object: assigning a string, number
      or boolean to it is ignored, so it never becomes an own property. */
  const ProtoKey := "__proto__"

  /** A row key the saved object keeps: not empty (skipped by the loop) and
      not `__proto__` (absorbed by the accessor, since a row value is never an
      object). */
  predicate Stored(key: string) {
    key != "" && key != ProtoKey
  }

  /** The (key, value) pairs of the rows whose key is kept, in row order. */
  function KeyedPairs(rows: seq<ParamRow>, parseNumber: string -> Option<real>): (ps: Fields<Json>)
    ensures |ps| <= |rows|
  {
    if rows == [] then []
    else
      var init := KeyedPairs(rows[..|rows| - 1], parseNumber);
      var last := rows[|rows| - 1];
      if Stored(last.key) then init + [(last.key, RowValue(last, parseNumber))] else init
  }

  /** The `forEach` in `handleSaveConfig`: rows are assigned in order onto an
      empty object; rows without a key are skipped and a `__proto__` row has no
      effect.  What each key ends up holding is stated by `ParamsOfLookup` and
      `LastRowWins`. */
  function ParamsOf(rows: seq<ParamRow>, parseNumber: string -> Option<real>): (r: Fields<Json>)
    ensures UniqueKeys(r)
    ensures "" !in Keys(r) && ProtoKey !in Keys(r)
  {
    if rows == [] then []
    else
      var init := rows[..|rows| - 1];
      var prev := ParamsOf(init, parseNumber);
      var last := rows[|rows| - 1];
      if !Stored(last.key) then prev
      else
        PutUnique(prev, last.key, RowValue(last, parseNumber));
        Put(prev, last.key, RowValue(last, parseNumber))
  }

  /** Saving one more row: a row without a key changes nothing, a row with
      one assigns its value onto what the earlier rows saved. */
  lemma ParamsOfStep(rows: seq<ParamRow>, parseNumber: string -> Option<real>)
    requires rows != []
    ensures var n := |rows| - 1;
            ParamsOf(rows, parseNumber)
            == if !Stored(rows[n].key) then ParamsOf(rows[..n], parseNumber)
               else Put(ParamsOf(rows[..n], parseNumber), rows[n].key, RowValue(rows[n], parseNumber))
  {
  }

  /** Every key of the saved object holds the value of the last keyed row that
      names it, and a key no keyed row names is absent. */
  lemma {:induction false} ParamsOfLookup(rows: seq<ParamRow>, parseNumber: string -> Option<real>)
    ensures forall k :: Lookup(ParamsOf(rows, parseNumber), k) == LastBinding(KeyedPairs(rows, parseNumber), k)
  {
    if rows != [] {
      var n := |rows| - 1;
      var init := rows[..n];
      ParamsOfLookup(init, parseNumber);
      ParamsOfStep(rows, parseNumber);
      var ps := KeyedPairs(init, parseNumber);
      if Stored(rows[n].key) {
        var p := (rows[n].key, RowValue(rows[n], parseNumber));
        assert KeyedPairs(rows, parseNumber) == ps + [p];
        assert (ps + [p])[..|ps|] == ps;
      }
    }
  }

  /** The saved value of a key is the value of the LAST row carrying it; rows
      before it with the same key are overwritten. */
  lemma {:induction false} LastRowWins(rows: seq<ParamRow>, i: nat, parseNumber: string -> Option<real>)
    requires i < |rows| && Stored(rows[i].key)
    requires forall j :: i < j < |rows| ==> rows[j].key != rows[i].key
    ensures Lookup(ParamsOf(rows, parseNumber), rows[i].key) == Some(RowValue(rows[i], parseNumber))
  {
    ParamsOfLookup(rows, parseNumber);
    LastKeyedPair(rows, i, parseNumber);
  }

  /** The last row naming a kept key gives that key's last binding. */
  lemma {:induction false} LastKeyedPair(rows: seq<ParamRow>, i: nat, parseNumber: string -> Option<real>)
    requires i < |rows| && Stored(rows[i].key)
    requires forall j :: i < j < |rows| ==> rows[j].key != rows[i].key
    ensures LastBinding(KeyedPairs(rows, parseNumber), rows[i].key) == Some(RowValue(rows[i], parseNumber))
  {
    var n := |rows| - 1;
    var init := rows[..n];
    var ps := KeyedPairs(init, parseNumber);
    var last := rows[n];
    if i < n {
      assert init[i] == rows[i];
      forall j | i < j < |init| ensures init[j].key != rows[i].key {
        assert init[j] == rows[j];
      }
      LastKeyedPair(init, i, parseNumber);
      if Stored(last.key) {
        var p := (last.key, RowValue(last, parseNumber));
        assert KeyedPairs(rows, parseNumber) == ps + [p];
        assert (ps + [p])[..|ps|] == ps;
      }
    }
  }

  /** A `__proto__` row, whatever its value and kind, leaves the saved object
      as the other rows make it. */
  lemma ProtoRowIgnored(rows: seq<ParamRow>, value: string, kind: string, parseNumber: string -> Option<real>)
    ensures ParamsOf(rows + [ParamRow(ProtoKey, value, kind)], parseNumber) == ParamsOf(rows, parseNumber)
  {
    assert (rows + [ParamRow(ProtoKey, value, kind)])[..|rows|] == rows;
  }

  /** Editing rows made from an object and saving them gives the object back,
      when its keys are non-empty and not `__proto__` and its values are strings, booleans, or
      numbers that the number parser reads back from their own text. */
  lemma {:induction false} RowsRoundTrip(params: Fields<Json>, codec: Codec, parseNumber: string -> Option<real>)
    requires UniqueKeys(params)
    requires "" !in Keys(params) && ProtoKey !in Keys(params)
    requires forall i :: 0 <= i < |params| ==> Restorable(params[i].1, codec, parseNumber)
    ensures ParamsOf(RowsOf(params, codec), parseNumber) == params
  {
    if params != [] {
      var n := |params| - 1;
      var init := params[..n];
      assert forall i :: 0 <= i < n ==> Keys(init)[i] == Keys(params)[i];
      RowsRoundTrip(init, codec, parseNumber);
      RoundTripStep(params, codec, parseNumber);
    }
  }

  /** A value whose row saves back to the value itself. */
  predicate Restorable(v: Json, codec: Codec, parseNumber: string -> Option<real>) {
    v.JStr? || v.JBool? || (v.JNum? && parseNumber(codec.numberText(v.n)) == Some(v.n))
  }

  /** The last property's row re-appends that property. */
  lemma RoundTripStep(params: Fields<Json>, codec: Codec, parseNumber: string -> Option<real>)
    requires params != [] && UniqueKeys(params)
    requires "" !in Keys(params) && ProtoKey !in Keys(params)
    requires Restorable(params[|params| - 1].1, codec, parseNumber)
    requires ParamsOf(RowsOf(params[..|params| - 1], codec), parseNumber) == params[..|params| - 1]
    ensures ParamsOf(RowsOf(params, codec), parseNumber) == params
  {
    var n := |params| - 1;
    var init, k, v := params[..n], params[n].0, params[n].1;
    var rows := RowsOf(params, codec);
    RowsPrefix(params, codec);
    LastKeyFresh(params);
    assert rows[n] == ParamRow(k, StringOf(v, codec), TypeOf(v));
    RestorableRow(k, v, codec, parseNumber);
    ParamsOfStep(rows, parseNumber);
    PutFresh(init, k, v);
    Text.InitLast(params);
  }

  /** The rows of a prefix are the prefix of the rows. */
  lemma RowsPrefix(params: Fields<Json>, codec: Codec)
    requires params != []
    ensures RowsOf(params, codec)[..|params| - 1] == RowsOf(params[..|params| - 1], codec)
  {
  }

  /** With unique keys, the last key is not among the earlier ones. */
  lemma LastKeyFresh<V>(fs: Fields<V>)
    requires fs != [] && UniqueKeys(fs)
    ensures fs[|fs| - 1].0 in Keys(fs) && fs[|fs| - 1].0 !in Keys(fs[..|fs| - 1])
  {
    var n := |fs| - 1;
    assert Keys(fs)[n] == fs[n].0;
    assert forall i :: 0 <= i < n ==> Keys(fs[..n])[i] == fs[i].0;
  }

  /** The row of a restorable value saves back to that value. */
  lemma RestorableRow(k: string, v: Json, codec: Codec, parseNumber: string -> Option<real>)
    requires Restorable(v, codec, parseNumber)
    ensures RowValue(ParamRow(k, StringOf(v, codec), TypeOf(v)), parseNumber) == v
  {
  }

  /** A nested value does not survive an edit: an array or object parameter is
      saved back as its `String` text. */
  lemma NestedValueFlattened(key: string, v: Json, codec: Codec, parseNumber: string -> Option<real>)
    requires Stored(key) && (v.JArr? || v.JObj? || v == JNull)
    ensures ParamsOf(RowsOf([(key, v)], codec), parseNumber) == [(key, JStr(StringOf(v, codec)))]
  {
    var rows := RowsOf([(key, v)], codec);
    assert rows == [ParamRow(key, StringOf(v, codec), "object")];
    assert rows[..0] == [];
  }

  // ---------------------------------------------------------------------------
  // Saving
  // ---------------------------------------------------------------------------

  /** Every required field is filled in (a non-empty string; blanks pass). */
  predicate RequiredFieldsFilled(c: ApiConfig) {
    c.providerName != "" && c.baseUrl != "" && c.apiKey != "" && c.modelName != ""
  }

  datatype SaveOutcome =
    | NothingToSave                // no configuration is being edited
    | MissingFields                // the "Please fill in all required fields" alert
    | SaveCall(config: ApiConfig)  // the configuration handed to save-config

  /** `handleSaveConfig`: the edited configuration with its custom parameters
      replaced by the saved rows; every other field is kept. */
  function SaveForm(editing: Option<ApiConfig>, rows: seq<ParamRow>, parseNumber: string -> Option<real>): (o: SaveOutcome)
    ensures editing.None? <==> o == NothingToSave
    ensures o.MissingFields? <==> editing.Some? && !RequiredFieldsFilled(editing.value)
    ensures o.SaveCall? ==> o.config == editing.value.(customParams := o.config.customParams)
    ensures o.SaveCall? ==> UniqueKeys(o.config.customParams) && "" !in Keys(o.config.customParams)
                            && ProtoKey !in Keys(o.config.customParams)
    ensures o.SaveCall? ==> forall k :: Lookup(o.config.customParams, k) == LastBinding(KeyedPairs(rows, parseNumber), k)
  {
    match editing
    case None => NothingToSave
    case Some(c) =>
      if !RequiredFieldsFilled(c) then MissingFields
      else
        ParamsOfLookup(rows, parseNumber);
        SaveCall(c.(customParams := ParamsOf(rows, parseNumber)))
  }

  /** A fresh configuration cannot be saved until its required fields are
      filled in. */
  lemma NewConfigNeedsFields(id: string, rows: seq<ParamRow>, parseNumber: string -> Option<real>)
    ensures SaveForm(Some(NewConfig(id)), rows, parseNumber) == MissingFields
  {
  }

  // ---------------------------------------------------------------------------
  // Row editing
  // ---------------------------------------------------------------------------

  /** `handleAddCustomParam`: an empty string row at the end. */
  function AddRow(rows: seq<ParamRow>): (r: seq<ParamRow>)
    ensures |r| == |rows| + 1 && r[..|rows|] == rows && r[|rows|] == ParamRow("", "", "string")
  {
    rows + [ParamRow("", "", "string")]
  }

  /** `handleRemoveCustomParam`: `filter((_, i) => i !== index)`.  An index
      outside the list removes nothing. */
  function RemoveRow(rows: seq<ParamRow>, index: int): (r: seq<ParamRow>)
    ensures 0 <= index < |rows| ==> |r| == |rows| - 1
    ensures 0 <= index < |rows| ==> forall i :: 0 <= i < |r| ==> r[i] == rows[if i < index then i else i + 1]
    ensures !(0 <= index < |rows|) ==> r == rows
  {
    if 0 <= index < |rows| then rows[..index] + rows[index + 1..] else rows
  }

  /** A freshly added row that is removed again leaves the list as it was. */
  lemma RemoveAddedRow(rows: seq<ParamRow>)
    ensures RemoveRow(AddRow(rows), |rows|) == rows
  {
    assert AddRow(rows)[..|rows|] == rows;
  }

  /** A freshly added row has no key, so it does not change what is saved. */
  lemma AddedRowNotSaved(rows: seq<ParamRow>, parseNumber: string -> Option<real>)
    ensures ParamsOf(AddRow(rows), parseNumber) == ParamsOf(rows, parseNumber)
  {
    assert AddRow(rows)[..|rows|] == rows;
  }

  /** The column of a row `handleCustomParamChange` writes. */
  datatype RowField = KeyField | ValueField | KindField

  /** `handleCustomParamChange`: the row at `index` gets `value` in one column;
      every other row and column is unchanged. */
  function ChangeRow(rows: seq<ParamRow>, index: nat, field: RowField, value: string): (r: seq<ParamRow>)
    requires index < |rows|
    ensures |r| == |rows|
    ensures forall i :: 0 <= i < |rows| && i != index ==> r[i] == rows[i]
    ensures field == KeyField ==> r[index] == ParamRow(value, rows[index].value, rows[index].kind)
    ensures field == ValueField ==> r[index] == ParamRow(rows[index].key, value, rows[index].kind)
    ensures field == KindField ==> r[index] == ParamRow(rows[index].key, rows[index].value, value)
  {
    var cur := rows[index];
    var row := match field
      case KeyField => cur.(key := value)
      case ValueField => cur.(value := value)
      case KindField => cur.(kind := value);
    rows[index := row]
  }

  /** Clearing a row's key takes its parameter out of the saved object, unless
      another row supplies the same key. */
  lemma ClearedKeyDropsParameter(rows: seq<ParamRow>, index: nat, parseNumber: string -> Option<real>)
    requires index < |rows| && rows[index].key != ""
    requires forall i :: 0 <= i < |rows| && i != index ==> rows[i].key != rows[index].key
    ensures Lookup(ParamsOf(ChangeRow(rows, index, KeyField, ""), parseNumber), rows[index].key).None?
  {
    var k := rows[index].key;
    var changed := ChangeRow(rows, index, KeyField, "");
    NoKeyNoBinding(changed, k, parseNumber);
    ParamsOfLookup(changed, parseNumber);
  }

  /** Rows none of which carries `k` leave `k` unbound. */
  lemma {:induction false} NoKeyNoBinding(rows: seq<ParamRow>, k: string, parseNumber: string -> Option<real>)
    requires forall i :: 0 <= i < |rows| ==> rows[i].key != k
    ensures LastBinding(KeyedPairs(rows, parseNumber), k).None?
  {
    if rows != [] {
      NoKeyNoBinding(rows[..|rows| - 1], k, parseNumber);
    }
  }
}
