/**
 * Reading a successful response: the content of a buffered chat reply, and
 * the model names of a models listing.  Reading a property of a `null` body
 * throws the engine's TypeError, which the handler reports as its error.
 */
module Responses {
  import opened Wrappers
  import opened Record
  import opened Json

  // ---------------------------------------------------------------------------
  // Buffered chat content
  // ---------------------------------------------------------------------------

  /** The first truthy candidate, in order, or `default` when none is truthy. */
  function FirstTruthy(candidates: seq<Option<Json>>, default: Json): (r: Json)
    ensures (exists i :: 0 <= i < |candidates| && IsTruthy(candidates[i])
               && (forall j :: 0 <= j < i ==> !IsTruthy(candidates[j]))
               && r == candidates[i].value)
            || ((forall j :: 0 <= j < |candidates| ==> !IsTruthy(candidates[j])) && r == default)
  {
    if candidates == [] then default
    else if IsTruthy(candidates[0]) then candidates[0].value
    else
      var r := FirstTruthy(candidates[1..], default);
      assert forall j :: 1 <= j < |candidates| ==> candidates[j] == candidates[1..][j - 1];
      r
  }

  /** `data.choices[0]` when `data.choices && data.choices[0]` holds. */
  function FirstChoice(data: Json): (r: Option<Json>)
    ensures r.Some? ==> Truthy(r.value)
    ensures r.Some? ==> IsTruthy(Prop(data, "choices"))
  {
    var choices := Prop(data, "choices");
    if IsTruthy(choices) && IsTruthy(Index0(choices.value)) then Index0(choices.value) else None
  }

  /** The content of a buffered reply: for an OpenAI-style body the first
      choice's `message?.content`, else its `text`, else the empty string, with
      `response` and `content` never consulted; otherwise a truthy `response`,
      else a truthy `content`, else the whole body serialised.  A `null` body
      fails reading `choices`. */
  function ExtractContent(data: Json, codec: Codec): (r: Result<Json, string>)
    ensures r.Failure? <==> data == JNull
    ensures r.Failure? ==> r.error == NullPropertyError("choices")
    ensures data != JNull && FirstChoice(data).Some? ==>
              var c := FirstChoice(data).value;
              r.value == FirstTruthy([Chain(Prop(c, "message"), "content"), Prop(c, "text")], JStr(""))
    ensures data != JNull && FirstChoice(data).None? ==>
              r.value == FirstTruthy([Prop(data, "response"), Prop(data, "content")], JStr(codec.stringify(data)))
  {
    if data == JNull then Failure(NullPropertyError("choices"))
    else match FirstChoice(data)
      case Some(c) =>
        Success(Or(Or(Chain(Prop(c, "message"), "content"), Prop(c, "text")), Some(JStr(""))).value)
      case None =>
        var response := Prop(data, "response");
        var content := Prop(data, "content");
        if IsTruthy(response) then Success(response.value)
        else if IsTruthy(content) then Success(content.value)
        else Success(JStr(codec.stringify(data)))
  }

  /** Once a first choice exists, the top-level `response` and `content`
      fields are never consulted, and the reply is never the serialised body
      unless a choice field holds that very value. */
  lemma ChoiceShadowsTopLevel(fs: Fields<Json>, extra: Fields<Json>, codec: Codec)
    requires FirstChoice(JObj(fs)).Some?
    requires forall k :: k in Keys(extra) ==> k == "response" || k == "content"
    ensures FirstChoice(JObj(Assign(fs, extra))) == FirstChoice(JObj(fs))
    ensures ExtractContent(JObj(Assign(fs, extra)), codec) == ExtractContent(JObj(fs), codec)
  {
    var g := Assign(fs, extra);
    assert LastBinding(extra, "choices").None? by {
      LastBindingKey(extra, "choices");
    }
    assert Lookup(g, "choices") == Lookup(fs, "choices");
  }

  /** A key with a last binding is one of the keys. */
  lemma {:induction false} LastBindingKey<V>(src: Fields<V>, k: string)
    ensures LastBinding(src, k).Some? ==> k in Keys(src)
  {
    if src != [] {
      var init := src[..|src| - 1];
      LastBindingKey(init, k);
      assert Keys(src) == Keys(init) + [src[|src| - 1].0];
    }
  }

  // ---------------------------------------------------------------------------
  // Models listing
  // ---------------------------------------------------------------------------

  /** `m.id || m.name || m.model` for a non-null element. */
  function ModelName(m: Json): Option<Json> {
    Or(Or(Prop(m, "id"), Prop(m, "name")), Prop(m, "model"))
  }

  /** `items.map(m => m.id || m.name || m.model).filter(Boolean)`: the map reads
      a property of every element first, so a `null` element anywhere throws. */
  function ModelNames(items: seq<Json>): (r: Result<seq<Json>, string>)
    ensures r.Failure? <==> JNull in items
    ensures r.Failure? ==> r.error == NullPropertyError("id")
    ensures r.Success? ==> |r.value| <= |items|
    ensures r.Success? ==> forall v :: v in r.value ==> Truthy(v)
  {
    if items == [] then Success([])
    else if items[0] == JNull then Failure(NullPropertyError("id"))
    else
      var rest := ModelNames(items[1..]);
      assert forall m :: m in items[1..] ==> m in items;
      assert JNull in items <==> JNull in items[1..];
      if rest.Failure? then rest
      else
        var name := ModelName(items[0]);
        if IsTruthy(name) then Success([name.value] + rest.value) else rest
  }

  /** Elements that each carry a non-empty string `id` list exactly those ids, in order. */
  lemma {:induction false} IdsListedInOrder(items: seq<Json>, ids: seq<string>)
    requires |items| == |ids|
    requires forall i :: 0 <= i < |items| ==> items[i].JObj? && Lookup(items[i].fields, "id") == Some(JStr(ids[i]))
    requires forall i :: 0 <= i < |ids| ==> ids[i] != ""
    ensures ModelNames(items) == Success(seq(|ids|, i requires 0 <= i < |ids| => JStr(ids[i])))
  {
    if items == [] {
      assert seq(|ids|, i requires 0 <= i < |ids| => JStr(ids[i])) == [];
    } else {
      var tail := items[1..];
      assert forall i :: 0 <= i < |tail| ==> tail[i] == items[i + 1];
      IdsListedInOrder(tail, ids[1..]);
      FirstIdListed(items[0], ids[0]);
      JStrsCons(ids);
    }
  }

  /** The models of a listing: `data.data` when it is an array (mapped and
      filtered), else `data.models` when it is an array (as it is), else the
      body itself when it is an array, else none.  A `null` body fails reading
      `data`. */
  function NormaliseModels(data: Json): (r: Result<seq<Json>, string>)
    ensures data == JNull ==> r == Failure(NullPropertyError("data"))
    ensures data != JNull && Prop(data, "data").Some? && Prop(data, "data").value.JArr?
            ==> r == ModelNames(Prop(data, "data").value.items)
    ensures r.Failure? ==> data == JNull || (Prop(data, "data").Some? && Prop(data, "data").value.JArr?
                                                  && JNull in Prop(data, "data").value.items)
    ensures data.JObj? && !ArrayAt(data, "data") && ArrayAt(data, "models")
            ==> r == Success(Prop(data, "models").value.items)
    ensures data.JObj? && !ArrayAt(data, "data") && !ArrayAt(data, "models") ==> r == Success([])
    ensures data.JArr? ==> r == Success(data.items)
    ensures data.JStr? || data.JNum? || data.JBool? ==> r == Success([])
  {
    if data == JNull then Failure(NullPropertyError("data"))
    else
      var listed := Prop(data, "data");
      var models := Prop(data, "models");
      if IsTruthy(listed) && listed.value.JArr? then ModelNames(listed.value.items)
      else if IsTruthy(models) && models.value.JArr? then Success(models.value.items)
      else if data.JArr? then Success(data.items)
      else Success([])
  }

  /** `Array.isArray(data[key])` on a non-null body. */
  predicate ArrayAt(data: Json, key: string) {
    Prop(data, key).Some? && Prop(data, key).value.JArr?
  }

  // A reference for the mapped and filtered list: the positions whose name is truthy.

  /** The positions of `items` whose name is truthy, in increasing order. */
  function NameIndices(items: seq<Json>): (r: seq<nat>)
    ensures forall j :: 0 <= j < |r| ==> r[j] < |items| && IsTruthy(ModelName(items[r[j]]))
    ensures forall j, k :: 0 <= j < k < |r| ==> r[j] < r[k]
    ensures forall i :: 0 <= i < |items| && IsTruthy(ModelName(items[i])) ==> i in r
  {
    if items == [] then []
    else
      var n := |items| - 1;
      var init := NameIndices(items[..n]);
      assert forall i :: 0 <= i < n ==> items[..n][i] == items[i];
      if IsTruthy(ModelName(items[n])) then init + [n] else init
  }

  /** The names at the given positions, in that order. */
  function NamesAt(items: seq<Json>, idx: seq<nat>): (r: seq<Json>)
    requires forall j :: 0 <= j < |idx| ==> idx[j] < |items| && IsTruthy(ModelName(items[idx[j]]))
    ensures |r| == |idx|
    ensures forall j :: 0 <= j < |idx| ==> Some(r[j]) == ModelName(items[idx[j]]) && Truthy(r[j])
  {
    if idx == [] then []
    else
      var n := |idx| - 1;
      var last := items[idx[n]];
      assert IsTruthy(ModelName(last));
      NamesAt(items, idx[..n]) + [ModelName(last).value]
  }

  /** The names listed for one element: its name when truthy, else none. */
  function NameOf(m: Json): (r: seq<Json>)
    ensures IsTruthy(ModelName(m)) ==> r == [ModelName(m).value]
    ensures !IsTruthy(ModelName(m)) ==> r == []
  {
    if IsTruthy(ModelName(m)) then [ModelName(m).value] else []
  }

  /** One element in front: its name, if any, then the names of the rest. */
  lemma ModelNamesCons(items: seq<Json>)
    requires items != [] && JNull !in items
    ensures ModelNames(items) == Success(NameOf(items[0]) + ModelNames(items[1..]).value)
  {
    assert JNull !in items[1..];
    var rest := ModelNames(items[1..]);
    assert rest.Success?;
    if !IsTruthy(ModelName(items[0])) {
      assert NameOf(items[0]) + rest.value == rest.value;
    }
  }

  /** Mapping and filtering a concatenation: the names of each part, joined. */
  lemma {:induction false} ModelNamesAppend(a: seq<Json>, b: seq<Json>)
    requires JNull !in a && JNull !in b
    ensures ModelNames(a + b) == Success(ModelNames(a).value + ModelNames(b).value)
  {
    if a == [] {
      assert a + b == b;
      assert ModelNames(a) == Success([]);
      assert ModelNames(b).Success?;
      assert [] + ModelNames(b).value == ModelNames(b).value;
    } else {
      var ab := a + b;
      assert ab[0] == a[0];
      assert ab[1..] == a[1..] + b;
      ModelNamesAppend(a[1..], b);
      ModelNamesCons(a);
      ModelNamesCons(ab);
      var ra, rb := ModelNames(a[1..]).value, ModelNames(b).value;
      assert NameOf(a[0]) + (ra + rb) == (NameOf(a[0]) + ra) + rb;
    }
  }

  /** Without a `null` element, the listed names are exactly the truthy names,
      one per element and in element order. */
  lemma {:induction false} ModelNamesSelect(items: seq<Json>)
    requires JNull !in items
    ensures ModelNames(items) == Success(NamesAt(items, NameIndices(items)))
  {
    if items != [] {
      var n := |items| - 1;
      var init, last := items[..n], items[n];
      assert items == init + [last];
      ModelNamesAppend(init, [last]);
      ModelNamesCons([last]);
      assert [last][1..] == [] && ModelNames([]) == Success([]);
      assert NameOf(last) + [] == NameOf(last);
      assert ModelNames([last]) == Success(NameOf(last));
      ModelNamesSelect(init);
      var idx := NameIndices(init);
      NamesAtPrefix(init, items, idx);
      var names := NamesAt(items, idx);
      assert ModelNames(init) == Success(names);
      assert ModelNames(items) == Success(names + NameOf(last));
      if IsTruthy(ModelName(last)) {
        assert NameIndices(items) == idx + [n];
        assert (idx + [n])[..|idx|] == idx;
        assert NamesAt(items, idx + [n]) == names + [ModelName(last).value];
      } else {
        assert NameIndices(items) == idx;
        assert names + NameOf(last) == names;
      }
    }
  }

  /** Every listed name is the name of some element. */
  lemma ModelNamesSound(items: seq<Json>)
    requires JNull !in items
    ensures forall v :: v in ModelNames(items).value ==> exists m :: m in items && ModelName(m) == Some(v)
  {
    ModelNamesSelect(items);
    var idx := NameIndices(items);
    var names := NamesAt(items, idx);
    forall v | v in names
      ensures exists m :: m in items && ModelName(m) == Some(v)
    {
      var j :| 0 <= j < |names| && names[j] == v;
      assert items[idx[j]] in items;
    }
  }

  /** Positions inside a prefix name the same elements in the whole list. */
  lemma NamesAtPrefix(init: seq<Json>, items: seq<Json>, idx: seq<nat>)
    requires |init| <= |items| && init == items[..|init|]
    requires forall j :: 0 <= j < |idx| ==> idx[j] < |init| && IsTruthy(ModelName(init[idx[j]]))
    ensures NamesAt(init, idx) == NamesAt(items, idx)
  {
    assert forall j :: 0 <= j < |idx| ==> init[idx[j]] == items[idx[j]];
  }

  /** An object with a non-empty string `id` is named by it. */
  lemma FirstIdListed(item: Json, id: string)
    requires item.JObj? && Lookup(item.fields, "id") == Some(JStr(id)) && id != ""
    ensures item != JNull && ModelName(item) == Some(JStr(id))
  {
    assert Prop(item, "id") == Some(JStr(id));
  }

  /** The strings of a non-empty list of ids: the first one, then the rest. */
  lemma JStrsCons(ids: seq<string>)
    requires ids != []
    ensures seq(|ids|, i requires 0 <= i < |ids| => JStr(ids[i]))
            == [JStr(ids[0])] + seq(|ids[1..]|, i requires 0 <= i < |ids[1..]| => JStr(ids[1..][i]))
  {
  }
}
