/** The request-shaping helpers of `services/pipefy/utils/formatters.py`:
    card fields into the `FieldValueInput` list of `createCard`, and field
    updates into the camelCase values of `updateFieldsValues`. */
module Formatters {
  import opened Values
  import opened Text

  // ---------------------------------------------------------------------
  // convert_fields_to_array
  // ---------------------------------------------------------------------

  /** The `FieldValueInput` built from one `(field_id, value)` pair of a dict input. */
  function FieldValueInput(e: Entry): Value {
    Dict([Entry("field_id", Str(e.key)), Entry("field_value", e.val), Entry("generated_by_ai", Bool(true))])
  }

  /** A list item: a dict without `generated_by_ai` gets it set to `True`;
      any other item, including a dict that already has the key, is kept as it is. */
  function DefaultGeneratedByAi(item: Value): Value {
    if item.Dict? && !HasKey(item.entries, "generated_by_ai")
    then Dict(item.entries + [Entry("generated_by_ai", Bool(true))])
    else item
  }

  /** What the list branch's loop builds, item by item at the end. */
  function NormalizedList(items: seq<Value>): seq<Value>
    decreases |items|
  {
    if items == [] then []
    else NormalizedList(items[..|items| - 1]) + [DefaultGeneratedByAi(items[|items| - 1])]
  }

  /** `convert_fields_to_array(fields)`: a dict becomes one `FieldValueInput` per
      entry, a list is normalised item by item, any other value is wrapped in a
      one-item list when truthy and dropped otherwise. */
  function FieldsToArray(fields: Value): seq<Value> {
    match fields
    case Dict(entries) => seq(|entries|, i requires 0 <= i < |entries| => FieldValueInput(entries[i]))
    case List(items) => NormalizedList(items)
    case _ => if Truthy(fields) then [fields] else []
  }

  /** The list branch keeps length and order and treats each item on its own. */
  lemma {:induction false} NormalizedListAt(items: seq<Value>)
    ensures |NormalizedList(items)| == |items|
    ensures forall i :: 0 <= i < |items| ==> NormalizedList(items)[i] == DefaultGeneratedByAi(items[i])
    decreases |items|
  {
    if items != [] {
      NormalizedListAt(items[..|items| - 1]);
    }
  }

  /** A dict input yields one entry per key, in insertion order, each marked as generated by AI. */
  lemma FieldsFromDict(entries: seq<Entry>)
    ensures |FieldsToArray(Dict(entries))| == |entries|
    ensures forall i :: 0 <= i < |entries| ==>
      FieldsToArray(Dict(entries))[i]
        == Dict([Entry("field_id", Str(entries[i].key)), Entry("field_value", entries[i].val),
                 Entry("generated_by_ai", Bool(true))])
  {
  }

  /** A list input keeps its length and order; non-dict items pass unchanged; a dict
      item without `generated_by_ai` gains it, set to `True`, after its other entries;
      a dict item that has it, even set to `False`, is unchanged. */
  lemma FieldsFromList(items: seq<Value>)
    ensures |FieldsToArray(List(items))| == |items|
    ensures forall i :: 0 <= i < |items| && !items[i].Dict? ==> FieldsToArray(List(items))[i] == items[i]
    ensures forall i :: 0 <= i < |items| && items[i].Dict? && HasKey(items[i].entries, "generated_by_ai") ==>
      FieldsToArray(List(items))[i] == items[i]
    ensures forall i :: 0 <= i < |items| && items[i].Dict? && !HasKey(items[i].entries, "generated_by_ai") ==>
      FieldsToArray(List(items))[i] == Dict(items[i].entries + [Entry("generated_by_ai", Bool(true))])
  {
    NormalizedListAt(items);
  }

  /** A dict item of a list input comes out carrying `generated_by_ai`, with its
      other keys mapped as before. */
  lemma DefaultMarksDict(d: seq<Entry>, k: string)
    ensures DefaultGeneratedByAi(Dict(d)).Dict?
    ensures HasKey(DefaultGeneratedByAi(Dict(d)).entries, "generated_by_ai")
    ensures k != "generated_by_ai" ==> Get(DefaultGeneratedByAi(Dict(d)).entries, k) == Get(d, k)
  {
    if !HasKey(d, "generated_by_ai") {
      PutGet(d, "generated_by_ai", Bool(true), k);
      PutGet(d, "generated_by_ai", Bool(true), "generated_by_ai");
    }
  }

  /** Any other value becomes `[value]` when truthy and `[]` when falsy. */
  lemma FieldsFromScalar(fields: Value)
    requires !fields.Dict? && !fields.List?
    ensures FieldsToArray(fields) == if Truthy(fields) then [fields] else []
  {
  }

  /** Every falsy input, `None` and the empty dict and list included, gives `[]`. */
  lemma FalsyFieldsGiveEmpty(fields: Value)
    requires !Truthy(fields)
    ensures FieldsToArray(fields) == []
  {
  }

  /** `convert_fields_to_array` as the source runs it: a comprehension for a dict,
      a loop appending to `normalized` for a list, one expression otherwise. */
  method ConvertFieldsToArray(fields: Value) returns (normalized: seq<Value>)
    ensures normalized == FieldsToArray(fields)
  {
    match fields
    case Dict(entries) =>
      normalized := seq(|entries|, i requires 0 <= i < |entries| => FieldValueInput(entries[i]));
    case List(items) =>
      normalized := [];
      var i := 0;
      while i < |items|
        invariant 0 <= i <= |items|
        invariant normalized == NormalizedList(items[..i])
      {
        var item := items[i];
        if item.Dict? {
          if !HasKey(item.entries, "generated_by_ai") {
            item := Dict(item.entries + [Entry("generated_by_ai", Bool(true))]);
          }
          normalized := normalized + [item];
        } else {
          normalized := normalized + [item];
        }
        assert items[..i + 1][..i] == items[..i];
        i := i + 1;
      }
      assert items[..i] == items;
    case _ =>
      normalized := if Truthy(fields) then [fields] else [];
  }

  // ---------------------------------------------------------------------
  // convert_values_to_camel_case
  // ---------------------------------------------------------------------

  /** The `ValueError` raised for the item at `index`. */
  datatype FormatError = MissingFieldId(index: nat) | MissingValue(index: nat)

  function ErrorMessage(e: FormatError): string {
    match e
    case MissingFieldId(i) => "Value at index " + IntToString(i) + " is missing required 'field_id' key"
    case MissingValue(i) => "Value at index " + IntToString(i) + " is missing required 'value' key"
  }

  /** An update item carries both keys the mutation needs. */
  predicate Complete(item: seq<Entry>) {
    HasKey(item, "field_id") && HasKey(item, "value")
  }

  /** `str(v.get("operation", "REPLACE")).upper()` */
  function Operation(item: seq<Entry>): string {
    Upper(PyStr(GetOr(item, "operation", Str("REPLACE"))))
  }

  /** The camelCase value sent for one complete update item. */
  function FieldUpdate(item: seq<Entry>): Value {
    Dict([Entry("fieldId", GetOr(item, "field_id", Null)),
          Entry("value", GetOr(item, "value", Null)),
          Entry("operation", Str(Operation(item))),
          Entry("generatedByAi", Bool(true))])
  }

  /** The index of the first incomplete item at or after `i`, if any. */
  function FirstIncomplete(values: seq<seq<Entry>>, i: nat): (r: Option<nat>)
    requires i <= |values|
    ensures r.Some? ==> i <= r.value < |values|
    decreases |values| - i
  {
    if i == |values| then None
    else if !Complete(values[i]) then Some(i)
    else FirstIncomplete(values, i + 1)
  }

  /** The error that the item at `k` raises when it is incomplete: a missing
      `field_id` is reported before a missing `value`. */
  function ErrorAt(item: seq<Entry>, k: nat): FormatError {
    if !HasKey(item, "field_id") then MissingFieldId(k) else MissingValue(k)
  }

  /** `convert_values_to_camel_case(values)`: the error of the first incomplete
      item, or every item in camelCase form. */
  function CamelCaseValues(values: seq<seq<Entry>>): Result<seq<Value>, FormatError> {
    match FirstIncomplete(values, 0)
    case Some(k) => Err(ErrorAt(values[k], k))
    case None => Ok(FieldUpdates(values))
  }

  /** Every item in camelCase form, in order. */
  function FieldUpdates(values: seq<seq<Entry>>): (r: seq<Value>)
    ensures |r| == |values|
  {
    seq(|values|, j requires 0 <= j < |values| => FieldUpdate(values[j]))
  }

  /** Converting one more item appends its camelCase form. */
  lemma FieldUpdatesSnoc(values: seq<seq<Entry>>, i: nat)
    requires i < |values|
    ensures FieldUpdates(values[..i + 1]) == FieldUpdates(values[..i]) + [FieldUpdate(values[i])]
  {
  }

  /** `FirstIncomplete` finds the smallest incomplete index, and finds none
      exactly when every item from `i` on is complete. */
  lemma {:induction false} FirstIncompleteIsFirst(values: seq<seq<Entry>>, i: nat)
    requires i <= |values|
    ensures FirstIncomplete(values, i).None? <==> forall j :: i <= j < |values| ==> Complete(values[j])
    ensures FirstIncomplete(values, i).Some? ==>
      var k := FirstIncomplete(values, i).value;
      i <= k < |values| && !Complete(values[k]) && forall j :: i <= j < k ==> Complete(values[j])
    decreases |values| - i
  {
    if i < |values| {
      FirstIncompleteIsFirst(values, i + 1);
    }
  }

  /** The item at `k` is the first incomplete one, so the call fails there. */
  lemma FirstIncompleteAt(values: seq<seq<Entry>>, k: nat)
    requires k < |values| && !Complete(values[k])
    requires forall j :: 0 <= j < k ==> Complete(values[j])
    ensures CamelCaseValues(values) == Err(ErrorAt(values[k], k))
  {
    FirstIncompleteIsFirst(values, 0);
    assert FirstIncomplete(values, 0) == Some(k);
  }

  /** When every item is complete, the result has the input's length and order,
      and item `j` is the camelCase form of item `j`. */
  lemma CamelCaseSuccess(values: seq<seq<Entry>>)
    requires forall j :: 0 <= j < |values| ==> Complete(values[j])
    ensures CamelCaseValues(values).Ok?
    ensures |CamelCaseValues(values).value| == |values|
    ensures forall j :: 0 <= j < |values| ==> CamelCaseValues(values).value[j] == FieldUpdate(values[j])
  {
    FirstIncompleteIsFirst(values, 0);
    assert CamelCaseValues(values).value == FieldUpdates(values);
  }

  /** A failure names an incomplete item, every item before it is complete, and the
      error is about `field_id` exactly when that key is the one missing there. */
  lemma CamelCaseFailure(values: seq<seq<Entry>>)
    requires CamelCaseValues(values).Err?
    ensures var e := CamelCaseValues(values).error;
      && e.index < |values|
      && !Complete(values[e.index])
      && (forall j :: 0 <= j < e.index ==> Complete(values[j]))
      && (e.MissingFieldId? <==> !HasKey(values[e.index], "field_id"))
  {
    FirstIncompleteIsFirst(values, 0);
  }

  /** The call succeeds exactly when every item is complete. */
  lemma CamelCaseOkIff(values: seq<seq<Entry>>)
    ensures CamelCaseValues(values).Ok? <==> forall j :: 0 <= j < |values| ==> Complete(values[j])
  {
    FirstIncompleteIsFirst(values, 0);
  }

  /** The camelCase form of an item: `fieldId` is its `field_id`, `value` its
      `value`, `operation` its operation upper-cased and `generatedByAi` is `True`,
      in that key order. */
  lemma FieldUpdateEntries(item: seq<Entry>)
    requires Complete(item)
    ensures FieldUpdate(item).Dict?
    ensures Keys(FieldUpdate(item).entries) == ["fieldId", "value", "operation", "generatedByAi"]
    ensures Get(FieldUpdate(item).entries, "fieldId") == Get(item, "field_id")
    ensures Get(FieldUpdate(item).entries, "value") == Get(item, "value")
    ensures Get(FieldUpdate(item).entries, "operation") == Some(Str(Operation(item)))
    ensures Get(FieldUpdate(item).entries, "generatedByAi") == Some(Bool(true))
  {
    var d := FieldUpdate(item).entries;
    assert d[1..][1..][1..] == [Entry("generatedByAi", Bool(true))];
    assert Get(d[1..][1..][1..], "generatedByAi") == Some(Bool(true));
    assert Get(d[1..][1..], "generatedByAi") == Some(Bool(true));
  }

  /** The operation sent is the given one upper-cased, `"REPLACE"` when absent:
      always upper-case. */
  lemma OperationNormalised(item: seq<Entry>)
    ensures IsUpperCase(Operation(item))
    ensures !HasKey(item, "operation") ==> Operation(item) == "REPLACE"
    ensures forall s :: Get(item, "operation") == Some(Str(s)) ==> Operation(item) == Upper(s)
  {
    var given := Get(item, "operation");
    UpperIsUpperCase(PyStr(GetOr(item, "operation", Str("REPLACE"))));
    if given.None? {
      assert Operation(item) == Upper("REPLACE");
      UpperOfUpperCase("REPLACE");
    } else {
      assert Operation(item) == Upper(PyStr(given.value));
    }
  }

  /** `convert_values_to_camel_case` as the source runs it: a loop over
      `enumerate(values)` appending to `formatted`, raising at the first incomplete item. */
  method ConvertValuesToCamelCase(values: seq<seq<Entry>>) returns (r: Result<seq<Value>, FormatError>)
    ensures r == CamelCaseValues(values)
  {
    var formatted: seq<Value> := [];
    var i := 0;
    while i < |values|
      invariant 0 <= i <= |values|
      invariant forall j :: 0 <= j < i ==> Complete(values[j])
      invariant formatted == FieldUpdates(values[..i])
    {
      var v := values[i];
      if !HasKey(v, "field_id") {
        FirstIncompleteAt(values, i);
        return Err(MissingFieldId(i));
      }
      if !HasKey(v, "value") {
        FirstIncompleteAt(values, i);
        return Err(MissingValue(i));
      }
      FieldUpdatesSnoc(values, i);
      formatted := formatted + [FieldUpdate(v)];
      i := i + 1;
    }
    FirstIncompleteIsFirst(values, 0);
    assert values[..i] == values;
    r := Ok(formatted);
  }
}
