/** `services/pipefy/pipe_service.py`: fetching a pipe, and shaping the start-form
    fields of a pipe with its empty-result messages and its `required_only` filter. */
module Pipes {
  import opened Values
  import opened GraphQL
  import Seqs

  const NoFieldsMessage := "This pipe has no start form fields configured."
  const NoRequiredFieldsMessage := "This pipe has no required fields in the start form."

  /** The dict `get_start_form_fields` returns: `message` when there is one, then `start_form_fields`. */
  datatype StartForm = StartForm(message: Option<string>, fields: Value)
  {
    function ToValue(): Value {
      Dict((if message.Some? then [Entry("message", Str(message.value))] else [])
           + [Entry("start_form_fields", fields)])
    }
  }

  /** The exceptions the shaping code itself can raise on an unexpected result: `.get` on a
      value that is not a dict, or iterating over a number or a boolean. */
  datatype ShapeError = AttributeError | TypeError
  {
    function Name(): string {
      match this
      case AttributeError => "AttributeError"
      case TypeError => "TypeError"
    }
  }

  /** `result.get("pipe", {}).get("start_form_fields", [])` */
  function PipeFields(result: Value): Result<Value, ShapeError> {
    if !result.Dict? then Err(AttributeError)
    else
      var pipe := GetOr(result.entries, "pipe", Dict([]));
      if !pipe.Dict? then Err(AttributeError)
      else Ok(GetOr(pipe.entries, "start_form_fields", List([])))
  }

  /** `field.get("required")`, for a field that is a dict. */
  predicate IsRequired(field: Value) {
    field.Dict? && Truthy(GetOr(field.entries, "required", Null))
  }

  /** `get_start_form_fields` once the query result is in: no fields at all gives the first
      message; with `required_only` the fields are filtered, and nothing left gives the
      second message; otherwise the fields come back as they are. */
  function ShapeStartForm(result: Value, requiredOnly: bool): (r: Result<StartForm, ShapeError>)
    ensures !result.Dict? ==> r == Err(AttributeError)
    ensures r.Err? ==> PipeFields(result).Err? || requiredOnly
    ensures r.Ok? && r.value.message.Some? ==> r.value.fields == List([])
    ensures r.Ok? && r.value.message.None? ==> Truthy(r.value.fields)
    ensures r.Ok? && !requiredOnly ==> r.value.message.None? || r.value.message == Some(NoFieldsMessage)
  {
    match PipeFields(result)
    case Err(e) => Err(e)
    case Ok(fields) =>
      if !Truthy(fields) then Ok(StartForm(Some(NoFieldsMessage), List([])))
      else if !requiredOnly then Ok(StartForm(None, fields))
      else if fields.Int? || fields.Bool? then Err(TypeError)
      else if !fields.List? then Err(AttributeError)
      else if exists i :: 0 <= i < |fields.items| && !fields.items[i].Dict? then Err(AttributeError)
      else
        var kept := Seqs.Filter(fields.items, IsRequired);
        if kept == [] then Ok(StartForm(Some(NoRequiredFieldsMessage), List([])))
        else Ok(StartForm(None, List(kept)))
  }

  /** A missing `pipe`, a missing `start_form_fields` and a falsy one all give the
      "no start form fields" message, whatever `required_only` is. */
  lemma NoFieldsGiveMessage(result: Value, requiredOnly: bool)
    requires result.Dict?
    requires var pipe := GetOr(result.entries, "pipe", Dict([]));
             pipe.Dict? && !Truthy(GetOr(pipe.entries, "start_form_fields", List([])))
    ensures ShapeStartForm(result, requiredOnly) == Ok(StartForm(Some(NoFieldsMessage), List([])))
  {
  }

  /** A filter that keeps nothing found nothing that passes. */
  lemma {:induction false} FilterEmpty<T>(s: seq<T>, p: T -> bool)
    ensures Seqs.Filter(s, p) == [] <==> forall i :: 0 <= i < |s| ==> !p(s[i])
  {
    if Seqs.Filter(s, p) == [] {
      forall i | 0 <= i < |s| ensures !p(s[i]) {
        Seqs.FilterMembership(s, p, s[i]);
      }
    } else {
      var x := Seqs.Filter(s, p)[0];
      Seqs.FilterMembership(s, p, x);
      var i :| 0 <= i < |s| && s[i] == x;
    }
  }

  /** With `required_only` and a non-empty list of dict fields, the fields returned are exactly
      those whose `required` is truthy, each as often as it occurs and in their original order;
      when there are none, the
      "no required fields" message comes back instead. */
  lemma RequiredOnlyKeepsRequired(result: Value, fields: seq<Value>, f: Value)
    requires PipeFields(result) == Ok(List(fields)) && fields != []
    requires forall i :: 0 <= i < |fields| ==> fields[i].Dict?
    ensures (forall i :: 0 <= i < |fields| ==> !IsRequired(fields[i])) ==>
              ShapeStartForm(result, true) == Ok(StartForm(Some(NoRequiredFieldsMessage), List([])))
    ensures (exists i :: 0 <= i < |fields| && IsRequired(fields[i])) ==>
              var r := ShapeStartForm(result, true);
              r.Ok? && r.value.message.None? && r.value.fields.List?
              && (f in r.value.fields.items <==> f in fields && IsRequired(f))
              && Seqs.IsSubsequence(r.value.fields.items, fields)
              && multiset(r.value.fields.items)[f] == if IsRequired(f) then multiset(fields)[f] else 0
  {
    var kept := Seqs.Filter(fields, IsRequired);
    assert Truthy(List(fields));
    assert !exists i :: 0 <= i < |fields| && !fields[i].Dict?;
    assert ShapeStartForm(result, true) ==
      if kept == [] then Ok(StartForm(Some(NoRequiredFieldsMessage), List([])))
      else Ok(StartForm(None, List(kept)));
    FilterEmpty(fields, IsRequired);
    Seqs.FilterMembership(fields, IsRequired, f);
    Seqs.FilterIsSubsequence(fields, IsRequired);
    Seqs.FilterMultiset(fields, IsRequired, f);
  }

  /** With `required_only`, a list of fields that are all required comes back whole. */
  lemma AllRequiredKept(result: Value, fields: seq<Value>)
    requires PipeFields(result) == Ok(List(fields)) && fields != []
    requires forall i :: 0 <= i < |fields| ==> IsRequired(fields[i])
    ensures ShapeStartForm(result, true) == Ok(StartForm(None, List(fields)))
  {
    Seqs.FilterKeepsAll(fields, IsRequired);
    assert !exists i :: 0 <= i < |fields| && !fields[i].Dict?;
    assert Truthy(List(fields));
  }

  /** Without `required_only`, fields that are there come back unchanged and with no message. */
  lemma WithoutRequiredOnlyUnchanged(result: Value, fields: Value)
    requires PipeFields(result) == Ok(fields) && Truthy(fields)
    ensures ShapeStartForm(result, false) == Ok(StartForm(None, fields))
  {
  }

  /** A result carries a message exactly when its field list is empty: with a message the list
      is `[]`, without one the fields are non-empty. Without `required_only` the shaping fails
      only when the lookup itself does. */
  lemma MessageIffNoFields(result: Value, requiredOnly: bool)
    ensures match ShapeStartForm(result, requiredOnly)
            case Ok(sf) =>
              (sf.message.Some? ==> sf.fields == List([]))
              && (sf.message.None? ==> Truthy(sf.fields))
            case Err(_) => requiredOnly || PipeFields(result).Err?
  {
  }

  /** The shaped result as the dict the caller sees: a `message` key exactly when the
      field list is empty. */
  lemma ToValueHasMessageIff(sf: StartForm)
    ensures sf.ToValue().Dict?
    ensures HasKey(sf.ToValue().entries, "message") <==> sf.message.Some?
    ensures Get(sf.ToValue().entries, "start_form_fields") == Some(sf.fields)
  {
    assert "message" != "start_form_fields" by {
      assert "message"[0] != "start_form_fields"[0];
    }
  }

  class PipeService {
    const client: Client

    constructor (client: Client)
      ensures this.client == client
    {
      this.client := client;
    }

    /** `get_pipe`: sends exactly `{pipe_id}` and returns the response unchanged. */
    method GetPipe(pipeId: int) returns (r: Outcome)
      modifies client
      ensures client.SentOne(Request(GetPipeQuery, [Entry("pipe_id", Int(pipeId))]), r)
    {
      r := client.Execute(GetPipeQuery, [Entry("pipe_id", Int(pipeId))]);
    }

    /** `get_start_form_fields`: one request with `{pipe_id}`; its response is shaped, an
        exception from the request propagates, and an exception raised while shaping is
        reported by its class name. */
    method GetStartFormFields(pipeId: int, requiredOnly: bool) returns (r: Outcome)
      modifies client
      ensures client.requests == old(client.requests) + [Request(GetStartFormFieldsQuery, [Entry("pipe_id", Int(pipeId))])]
      ensures var sent := client.endpoint(|old(client.requests)|,
                                          Request(GetStartFormFieldsQuery, [Entry("pipe_id", Int(pipeId))]));
              r == match sent
                   case Response(data) =>
                     (match ShapeStartForm(data, requiredOnly)
                      case Ok(sf) => Response(sf.ToValue())
                      case Err(e) => LocalError(e.Name()))
                   case _ => sent
    {
      var result := client.Execute(GetStartFormFieldsQuery, [Entry("pipe_id", Int(pipeId))]);
      if !result.Response? {
        return result;
      }
      var shaped := ShapeStartForm(result.data, requiredOnly);
      if shaped.Err? {
        return LocalError(shaped.error.Name());
      }
      r := Response(shaped.value.ToValue());
    }
  }
}
