/** `CardService` (`services/pipefy/card_service.py`): each operation builds one
    variables dict and makes one call on the shared GraphQL client. */
module Cards {
  import opened Values
  import opened GraphQL
  import Formatters

  /** A `list[int]` as a value. */
  function IntList(xs: seq<int>): (v: Value)
    ensures v.List? && |v.items| == |xs|
    ensures forall i :: 0 <= i < |xs| ==> v.items[i] == Int(xs[i])
  {
    List(seq(|xs|, i requires 0 <= i < |xs| => Int(xs[i])))
  }

  /** A `str | None` argument as an optional value. */
  function OptStr(o: Option<string>): Option<Value> {
    if o.Some? then Some(Str(o.value)) else None
  }

  /** A `list[int] | None` argument as an optional value. */
  function OptInts(o: Option<seq<int>>): Option<Value> {
    if o.Some? then Some(IntList(o.value)) else None
  }

  /** The entry `key: v` when `v` is given, and nothing otherwise. */
  function Optional(key: string, v: Option<Value>): seq<Entry> {
    if v.Some? then [Entry(key, v.value)] else []
  }

  lemma OptionalGet(key: string, v: Option<Value>, k: string)
    ensures Get(Optional(key, v), k) == if k == key then v else None
  {
  }

  /** The `input` of the `updateCard` mutation: the id, then each attribute that is not `None`,
      in the order title, assignees, labels, due date. */
  function AttributeInput(cardId: int, title: Option<string>, assigneeIds: Option<seq<int>>,
                          labelIds: Option<seq<int>>, dueDate: Option<string>): seq<Entry>
  {
    [Entry("id", Int(cardId))] + Optional("title", OptStr(title)) + Optional("assignee_ids", OptInts(assigneeIds))
    + Optional("label_ids", OptInts(labelIds)) + Optional("due_date", OptStr(dueDate))
  }

  /** Looking a key up in five dictionaries laid end to end finds it in the first one that has it. */
  lemma GetFive(a: seq<Entry>, b: seq<Entry>, c: seq<Entry>, d: seq<Entry>, e: seq<Entry>, key: string)
    ensures Get(a + b + c + d + e, key) ==
              if HasKey(a, key) then Get(a, key) else if HasKey(b, key) then Get(b, key)
              else if HasKey(c, key) then Get(c, key) else if HasKey(d, key) then Get(d, key)
              else Get(e, key)
  {
    GetAppend(a + b + c + d, e, key);
    GetAppend(a + b + c, d, key);
    GetAppend(a + b, c, key);
    GetAppend(a, b, key);
  }

  /** Setting a key the dictionary lacks appends it. */
  lemma PutAbsent(d: seq<Entry>, key: string, v: Value)
    requires Get(d, key) == None
    ensures Put(d, key, v) == d + Optional(key, Some(v))
  {
  }

  /** `input_data["assignee_ids"] = assignee_ids` on the input built so far appends the key. */
  lemma AddAssignees(cardId: int, title: Option<string>, ids: seq<int>)
    ensures Put(AttributeInput(cardId, title, None, None, None), "assignee_ids", IntList(ids))
            == AttributeInput(cardId, title, Some(ids), None, None)
  {
    AttributeInputSpec(cardId, title, None, None, None, "assignee_ids");
    PutAbsent(AttributeInput(cardId, title, None, None, None), "assignee_ids", IntList(ids));
  }

  /** `input_data["label_ids"] = label_ids` on the input built so far appends the key. */
  lemma AddLabels(cardId: int, title: Option<string>, assigneeIds: Option<seq<int>>, ids: seq<int>)
    ensures Put(AttributeInput(cardId, title, assigneeIds, None, None), "label_ids", IntList(ids))
            == AttributeInput(cardId, title, assigneeIds, Some(ids), None)
  {
    AttributeInputSpec(cardId, title, assigneeIds, None, None, "label_ids");
    PutAbsent(AttributeInput(cardId, title, assigneeIds, None, None), "label_ids", IntList(ids));
  }

  /** `input_data["due_date"] = due_date` on the input built so far appends the key. */
  lemma AddDueDate(cardId: int, title: Option<string>, assigneeIds: Option<seq<int>>,
                   labelIds: Option<seq<int>>, dueDate: string)
    ensures Put(AttributeInput(cardId, title, assigneeIds, labelIds, None), "due_date", Str(dueDate))
            == AttributeInput(cardId, title, assigneeIds, labelIds, Some(dueDate))
  {
    AttributeInputSpec(cardId, title, assigneeIds, labelIds, None, "due_date");
    PutAbsent(AttributeInput(cardId, title, assigneeIds, labelIds, None), "due_date", Str(dueDate));
  }

  /** The attribute input maps `id` to the card id and each attribute to its value when it was
      given; an attribute that was not given, and any other key, is absent. */
  lemma AttributeInputSpec(cardId: int, title: Option<string>, assigneeIds: Option<seq<int>>,
                           labelIds: Option<seq<int>>, dueDate: Option<string>, k: string)
    ensures var input := AttributeInput(cardId, title, assigneeIds, labelIds, dueDate);
            Get(input, k) ==
              if k == "id" then Some(Int(cardId))
              else if k == "title" then OptStr(title)
              else if k == "assignee_ids" then OptInts(assigneeIds)
              else if k == "label_ids" then OptInts(labelIds)
              else if k == "due_date" then OptStr(dueDate)
              else None
  {
    var a := [Entry("id", Int(cardId))];
    var b := Optional("title", OptStr(title));
    var c := Optional("assignee_ids", OptInts(assigneeIds));
    var d := Optional("label_ids", OptInts(labelIds));
    var e := Optional("due_date", OptStr(dueDate));
    GetFive(a, b, c, d, e, k);
    OptionalGet("title", OptStr(title), k);
    OptionalGet("assignee_ids", OptInts(assigneeIds), k);
    OptionalGet("label_ids", OptInts(labelIds), k);
    OptionalGet("due_date", OptStr(dueDate), k);
  }

  class CardService {
    const client: Client

    constructor (client: Client)
      ensures this.client == client
    {
      this.client := client;
    }

    /** `create_card`: the fields go through `convert_fields_to_array`. */
    method CreateCard(pipeId: int, fields: Value) returns (r: Outcome)
      modifies client
      ensures client.SentOne(Request(CreateCardMutation,
                [Entry("pipe_id", Int(pipeId)), Entry("fields", List(Formatters.FieldsToArray(fields)))]), r)
    {
      var normalized := Formatters.ConvertFieldsToArray(fields);
      r := client.Execute(CreateCardMutation, [Entry("pipe_id", Int(pipeId)), Entry("fields", List(normalized))]);
    }

    /** `create_comment` */
    method CreateComment(cardId: int, text: string) returns (r: Outcome)
      modifies client
      ensures client.SentOne(Request(CreateCommentMutation,
                [Entry("input", Dict([Entry("card_id", Int(cardId)), Entry("text", Str(text))]))]), r)
    {
      r := client.Execute(CreateCommentMutation,
        [Entry("input", Dict([Entry("card_id", Int(cardId)), Entry("text", Str(text))]))]);
    }

    /** `update_comment` */
    method UpdateComment(commentId: int, text: string) returns (r: Outcome)
      modifies client
      ensures client.SentOne(Request(UpdateCommentMutation,
                [Entry("input", Dict([Entry("id", Int(commentId)), Entry("text", Str(text))]))]), r)
    {
      r := client.Execute(UpdateCommentMutation,
        [Entry("input", Dict([Entry("id", Int(commentId)), Entry("text", Str(text))]))]);
    }

    /** `delete_comment` */
    method DeleteComment(commentId: int) returns (r: Outcome)
      modifies client
      ensures client.SentOne(Request(DeleteCommentMutation, [Entry("input", Dict([Entry("id", Int(commentId))]))]), r)
    {
      r := client.Execute(DeleteCommentMutation, [Entry("input", Dict([Entry("id", Int(commentId))]))]);
    }

    /** `delete_card` */
    method DeleteCard(cardId: int) returns (r: Outcome)
      modifies client
      ensures client.SentOne(Request(DeleteCardMutation, [Entry("input", Dict([Entry("id", Int(cardId))]))]), r)
    {
      r := client.Execute(DeleteCardMutation, [Entry("input", Dict([Entry("id", Int(cardId))]))]);
    }

    /** `get_card` */
    method GetCard(cardId: int, includeFields: bool) returns (r: Outcome)
      modifies client
      ensures client.SentOne(Request(GetCardQuery,
                [Entry("card_id", Int(cardId)), Entry("includeFields", Bool(includeFields))]), r)
    {
      r := client.Execute(GetCardQuery, [Entry("card_id", Int(cardId)), Entry("includeFields", Bool(includeFields))]);
    }

    /** `get_cards`: the search starts as `{}` and is overwritten in place when one is given. */
    method GetCards(pipeId: int, search: Option<Value>, includeFields: bool) returns (r: Outcome)
      modifies client
      ensures client.SentOne(Request(GetCardsQuery,
                [Entry("pipe_id", Int(pipeId)),
                 Entry("search", if search.Some? then search.value else Dict([])),
                 Entry("includeFields", Bool(includeFields))]), r)
    {
      var variables := [Entry("pipe_id", Int(pipeId)), Entry("search", Dict([])), Entry("includeFields", Bool(includeFields))];
      if search.Some? {
        var v := search.value;
        assert variables[1..][1..] == [Entry("includeFields", Bool(includeFields))];
        assert Put(variables[1..], "search", v) == [Entry("search", v)] + variables[1..][1..];
        assert Put(variables, "search", v) == [variables[0]] + Put(variables[1..], "search", v);
        variables := Put(variables, "search", v);
      }
      assert variables == [Entry("pipe_id", Int(pipeId)),
                           Entry("search", if search.Some? then search.value else Dict([])),
                           Entry("includeFields", Bool(includeFields))];
      r := client.Execute(GetCardsQuery, variables);
    }

    /** `find_cards` */
    method FindCards(pipeId: int, fieldId: string, fieldValue: string, includeFields: bool) returns (r: Outcome)
      modifies client
      ensures client.SentOne(Request(FindCardsQuery,
                [Entry("pipeId", Int(pipeId)),
                 Entry("search", Dict([Entry("fieldId", Str(fieldId)), Entry("fieldValue", Str(fieldValue))])),
                 Entry("includeFields", Bool(includeFields))]), r)
    {
      r := client.Execute(FindCardsQuery,
        [Entry("pipeId", Int(pipeId)),
         Entry("search", Dict([Entry("fieldId", Str(fieldId)), Entry("fieldValue", Str(fieldValue))])),
         Entry("includeFields", Bool(includeFields))]);
    }

    /** `move_card_to_phase` */
    method MoveCardToPhase(cardId: int, destinationPhaseId: int) returns (r: Outcome)
      modifies client
      ensures client.SentOne(Request(MoveCardToPhaseMutation,
                [Entry("input", Dict([Entry("card_id", Int(cardId)),
                                      Entry("destination_phase_id", Int(destinationPhaseId))]))]), r)
    {
      r := client.Execute(MoveCardToPhaseMutation,
        [Entry("input", Dict([Entry("card_id", Int(cardId)), Entry("destination_phase_id", Int(destinationPhaseId))]))]);
    }

    /** `update_card_field` */
    method UpdateCardField(cardId: int, fieldId: string, newValue: Value) returns (r: Outcome)
      modifies client
      ensures client.SentOne(Request(UpdateCardFieldMutation,
                [Entry("input", Dict([Entry("card_id", Int(cardId)), Entry("field_id", Str(fieldId)),
                                      Entry("new_value", newValue)]))]), r)
    {
      r := client.Execute(UpdateCardFieldMutation,
        [Entry("input", Dict([Entry("card_id", Int(cardId)), Entry("field_id", Str(fieldId)), Entry("new_value", newValue)]))]);
    }

    /** `update_card`: a non-empty `field_updates` selects the field mode and nothing else is sent;
        otherwise the attribute mode sends the given attributes. */
    method UpdateCard(cardId: int, title: Option<string>, assigneeIds: Option<seq<int>>, labelIds: Option<seq<int>>,
                      dueDate: Option<string>, fieldUpdates: Option<seq<seq<Entry>>>) returns (r: Outcome)
      modifies client
      ensures fieldUpdates.Some? && fieldUpdates.value != [] ==>
                match Formatters.CamelCaseValues(fieldUpdates.value)
                case Ok(formatted) =>
                  client.SentOne(Request(UpdateFieldsValuesMutation,
                    [Entry("input", Dict([Entry("nodeId", Int(cardId)), Entry("values", List(formatted))]))]), r)
                case Err(e) =>
                  client.requests == old(client.requests) && r == LocalError(Formatters.ErrorMessage(e))
      ensures fieldUpdates.None? || fieldUpdates.value == [] ==>
                client.SentOne(Request(UpdateCardMutation,
                  [Entry("input", Dict(AttributeInput(cardId, title, assigneeIds, labelIds, dueDate)))]), r)
    {
      if fieldUpdates.Some? && fieldUpdates.value != [] {
        r := ExecuteUpdateFieldsValues(cardId, fieldUpdates.value);
        return;
      }
      r := ExecuteUpdateCard(cardId, title, assigneeIds, labelIds, dueDate);
    }

    /** `_execute_update_card`: `input` starts with the id and gains one key per given attribute. */
    method ExecuteUpdateCard(cardId: int, title: Option<string>, assigneeIds: Option<seq<int>>,
                             labelIds: Option<seq<int>>, dueDate: Option<string>) returns (r: Outcome)
      modifies client
      ensures client.SentOne(Request(UpdateCardMutation,
                [Entry("input", Dict(AttributeInput(cardId, title, assigneeIds, labelIds, dueDate)))]), r)
    {
      var inputData := [Entry("id", Int(cardId))];
      if title.Some? {
        inputData := Put(inputData, "title", Str(title.value));
      }
      assert inputData == AttributeInput(cardId, title, None, None, None);
      if assigneeIds.Some? {
        AddAssignees(cardId, title, assigneeIds.value);
        inputData := Put(inputData, "assignee_ids", IntList(assigneeIds.value));
      }
      if labelIds.Some? {
        AddLabels(cardId, title, assigneeIds, labelIds.value);
        inputData := Put(inputData, "label_ids", IntList(labelIds.value));
      }
      if dueDate.Some? {
        AddDueDate(cardId, title, assigneeIds, labelIds, dueDate.value);
        inputData := Put(inputData, "due_date", Str(dueDate.value));
      }
      r := client.Execute(UpdateCardMutation, [Entry("input", Dict(inputData))]);
    }

    /** `_execute_update_fields_values`: a formatting error is raised before anything is sent. */
    method ExecuteUpdateFieldsValues(cardId: int, values: seq<seq<Entry>>) returns (r: Outcome)
      modifies client
      ensures match Formatters.CamelCaseValues(values)
              case Ok(formatted) =>
                client.SentOne(Request(UpdateFieldsValuesMutation,
                  [Entry("input", Dict([Entry("nodeId", Int(cardId)), Entry("values", List(formatted))]))]), r)
              case Err(e) =>
                client.requests == old(client.requests) && r == LocalError(Formatters.ErrorMessage(e))
    {
      var formatted := Formatters.ConvertValuesToCamelCase(values);
      if formatted.Err? {
        return LocalError(Formatters.ErrorMessage(formatted.error));
      }
      r := client.Execute(UpdateFieldsValuesMutation,
        [Entry("input", Dict([Entry("nodeId", Int(cardId)), Entry("values", List(formatted.value))]))]);
    }
  }
}
