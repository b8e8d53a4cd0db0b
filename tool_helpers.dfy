/** The public payloads of the comment and delete-card tools, and the two filters the
    tools apply to field definitions and to user-supplied field values
    (`tools/pipe_tool_helpers.py`). */
module ToolHelpers {
  import opened Values
  import opened Text
  import Seqs

  // ---------------------------------------------------------------------------
  // Payloads; `success` is fixed by the variant, as the `Literal` types fix it.

  datatype AddCardCommentPayload =
    | AddCardCommentSuccess(commentId: string)
    | AddCardCommentFailure(error: string)
  {
    predicate Success() { AddCardCommentSuccess? }
  }

  datatype UpdateCommentPayload =
    | UpdateCommentSuccess(commentId: string)
    | UpdateCommentFailure(error: string)
  {
    predicate Success() { UpdateCommentSuccess? }
  }

  datatype DeleteCommentPayload =
    | DeleteCommentSuccess
    | DeleteCommentFailure(error: string)
  {
    predicate Success() { DeleteCommentSuccess? }
  }

  /** A preview (which requires confirmation), a completed deletion, or an error. */
  datatype DeleteCardPayload =
    | DeleteCardPreview(cardId: int, cardTitle: string, pipeName: string, message: string)
    | DeleteCardSuccess(cardId: int, cardTitle: string, pipeName: string, message: string)
    | DeleteCardFailure(error: string)
  {
    predicate Success() { DeleteCardSuccess? }
    predicate RequiresConfirmation() { DeleteCardPreview? }
  }

  /** `build_add_card_comment_success_payload`: the id is passed through `str()`. */
  function BuildAddCardCommentSuccessPayload(commentId: Value): (p: AddCardCommentPayload)
    ensures p.Success()
    ensures commentId.Str? ==> p.commentId == commentId.s
    ensures commentId.Int? ==> p.commentId == IntToString(commentId.i)
  {
    AddCardCommentSuccess(PyStr(commentId))
  }

  /** `build_update_comment_success_payload`: the id is passed through `str()`. */
  function BuildUpdateCommentSuccessPayload(commentId: Value): (p: UpdateCommentPayload)
    ensures p.Success()
    ensures commentId.Str? ==> p.commentId == commentId.s
    ensures commentId.Int? ==> p.commentId == IntToString(commentId.i)
  {
    UpdateCommentSuccess(PyStr(commentId))
  }

  /** `build_add_card_comment_error_payload` */
  function BuildAddCardCommentErrorPayload(message: string): (p: AddCardCommentPayload)
    ensures !p.Success() && p.error == message
  {
    AddCardCommentFailure(message)
  }

  /** `build_update_comment_error_payload` */
  function BuildUpdateCommentErrorPayload(message: string): (p: UpdateCommentPayload)
    ensures !p.Success() && p.error == message
  {
    UpdateCommentFailure(message)
  }

  /** `build_delete_comment_success_payload` */
  function BuildDeleteCommentSuccessPayload(): (p: DeleteCommentPayload)
    ensures p.Success()
  {
    DeleteCommentSuccess
  }

  /** `build_delete_comment_error_payload` */
  function BuildDeleteCommentErrorPayload(message: string): (p: DeleteCommentPayload)
    ensures !p.Success() && p.error == message
  {
    DeleteCommentFailure(message)
  }

  /** `build_delete_card_error_payload` */
  function BuildDeleteCardErrorPayload(message: string): (p: DeleteCardPayload)
    ensures !p.Success() && !p.RequiresConfirmation() && p.error == message
  {
    DeleteCardFailure(message)
  }

  /** A message made of fixed text around the card title, the card id and the pipe name
      contains all three, and whatever its fixed opening and closing contain. */
  lemma FilledMessage(head: string, title: string, mid1: string, id: string, mid2: string, pipe: string,
                      tail: string, headWord: string, tailWord: string)
    requires Contains(head, headWord) && Contains(tail, tailWord)
    ensures var m := head + title + mid1 + id + mid2 + pipe + tail;
            Contains(m, title) && Contains(m, id) && Contains(m, pipe)
            && Contains(m, headWord) && Contains(m, tailWord)
  {
    // Each step names a prefix of the message exactly as `+` nests it, from the left.
    var p1 := head + title;
    var p2 := p1 + mid1;
    var p3 := p2 + id;
    var p4 := p3 + mid2;
    var p5 := p4 + pipe;
    ContainsExtend(head, title, headWord);
    ContainsExtend(p1, mid1, headWord);
    ContainsExtend(p2, id, headWord);
    ContainsExtend(p3, mid2, headWord);
    ContainsExtend(p4, pipe, headWord);
    ContainsExtend(p5, tail, headWord);
    ContainsMiddle(head, title, mid1);
    ContainsExtend(p2, id, title);
    ContainsExtend(p3, mid2, title);
    ContainsExtend(p4, pipe, title);
    ContainsExtend(p5, tail, title);
    ContainsMiddle(p2, id, mid2);
    ContainsExtend(p4, pipe, id);
    ContainsExtend(p5, tail, id);
    ContainsMiddle(p4, pipe, tail);
    ContainsAfter(p5, tail, tailWord);
  }

  // The fixed openings and closings of the delete-card messages, written around the words
  // the tools' users look for.
  const PreviewHead: string := "\U{26A0}\U{FE0F} You are about to " + "permanently delete" + " card '"
  const PreviewTail: string := "'. This action is irreversible. Set '" + "confirm=True" + "' to proceed."
  const DeletedTail: string := "' has been " + "permanently deleted" + "."

  lemma FixedTextWords()
    ensures Contains(PreviewHead, "permanently delete")
    ensures Contains(PreviewTail, "confirm=True")
    ensures Contains(DeletedTail, "permanently deleted")
  {
    ContainsMiddle("\U{26A0}\U{FE0F} You are about to ", "permanently delete", " card '");
    ContainsMiddle("'. This action is irreversible. Set '", "confirm=True", "' to proceed.");
    ContainsMiddle("' has been ", "permanently deleted", ".");
  }

  /** `build_delete_card_preview_payload`: the warning names the card, its id and its pipe,
      and says how to confirm. */
  function BuildDeleteCardPreviewPayload(cardId: int, title: string, pipe: string): (p: DeleteCardPayload)
    ensures !p.Success() && p.RequiresConfirmation()
    ensures p.cardId == cardId && p.cardTitle == title && p.pipeName == pipe
    ensures Contains(p.message, "permanently delete") && Contains(p.message, "confirm=True")
    ensures Contains(p.message, title) && Contains(p.message, IntToString(cardId)) && Contains(p.message, pipe)
  {
    FixedTextWords();
    FilledMessage(PreviewHead, title, "' (ID: ", IntToString(cardId), ") from pipe '", pipe, PreviewTail,
                  "permanently delete", "confirm=True");
    DeleteCardPreview(cardId, title, pipe,
      PreviewHead + title + "' (ID: " + IntToString(cardId) + ") from pipe '" + pipe + PreviewTail)
  }

  /** `build_delete_card_success_payload`: the notice names the card, its id and its pipe. */
  function BuildDeleteCardSuccessPayload(cardId: int, title: string, pipe: string): (p: DeleteCardPayload)
    ensures p.Success() && !p.RequiresConfirmation()
    ensures p.cardId == cardId && p.cardTitle == title && p.pipeName == pipe
    ensures Contains(p.message, "permanently deleted")
    ensures Contains(p.message, title) && Contains(p.message, IntToString(cardId)) && Contains(p.message, pipe)
  {
    FixedTextWords();
    ContainsAt("Card '", "", 0);
    FilledMessage("Card '", title, "' (ID: ", IntToString(cardId), ") from pipe '", pipe, DeletedTail,
                  "", "permanently deleted");
    DeleteCardSuccess(cardId, title, pipe,
      "Card '" + title + "' (ID: " + IntToString(cardId) + ") from pipe '" + pipe + DeletedTail)
  }

  // ---------------------------------------------------------------------------
  // Editable field definitions

  /** A definition is kept when it is a dict whose `editable` is absent or truthy. */
  predicate IsEditable(definition: Value) {
    definition.Dict? && Truthy(GetOr(definition.entries, "editable", Bool(true)))
  }

  /** What `_filter_editable_field_definitions` returns. */
  function EditableDefinitions(definitions: seq<Value>): seq<Value> {
    Seqs.Filter(definitions, IsEditable)
  }

  /** `_filter_editable_field_definitions` */
  method FilterEditableFieldDefinitions(definitions: seq<Value>) returns (editable: seq<Value>)
    ensures editable == EditableDefinitions(definitions)
  {
    editable := [];
    for i := 0 to |definitions|
      invariant editable == Seqs.Filter(definitions[..i], IsEditable)
    {
      var definition := definitions[i];
      assert definitions[..i + 1][..i] == definitions[..i];
      if !definition.Dict? {
        continue;
      }
      if Truthy(GetOr(definition.entries, "editable", Bool(true))) {
        editable := editable + [definition];
      }
    }
    assert definitions[..|definitions|] == definitions;
  }

  /** Exactly the dicts whose `editable` is absent or truthy are kept, each as often as it occurs,
      in their original order. */
  lemma EditableDefinitionsSpec(definitions: seq<Value>)
    ensures forall d :: d in EditableDefinitions(definitions) <==>
              d in definitions && d.Dict? && (!HasKey(d.entries, "editable") || Truthy(GetOr(d.entries, "editable", Null)))
    ensures Seqs.IsSubsequence(EditableDefinitions(definitions), definitions)
    ensures forall d :: multiset(EditableDefinitions(definitions))[d] ==
              if d.Dict? && (!HasKey(d.entries, "editable") || Truthy(GetOr(d.entries, "editable", Null)))
              then multiset(definitions)[d] else 0
  {
    forall d ensures d in EditableDefinitions(definitions) <==> d in definitions && IsEditable(d) {
      Seqs.FilterMembership(definitions, IsEditable, d);
    }
    forall d ensures multiset(EditableDefinitions(definitions))[d] == if IsEditable(d) then multiset(definitions)[d] else 0 {
      Seqs.FilterMultiset(definitions, IsEditable, d);
    }
    Seqs.FilterIsSubsequence(definitions, IsEditable);
  }

  // ---------------------------------------------------------------------------
  // Field values restricted to the known definitions

  /** `{k: v for k, v in fields.items() if k in ids}`, built one entry at a time. */
  function Restrict(fields: seq<Entry>, ids: set<Value>): seq<Entry>
    decreases |fields|
  {
    if fields == [] then []
    else
      var last := fields[|fields| - 1];
      Restrict(fields[..|fields| - 1], ids) + (if Str(last.key) in ids then [last] else [])
  }

  /** In the restriction a key maps to what it mapped to before if it is an id, and is absent otherwise. */
  lemma {:induction false} RestrictGet(fields: seq<Entry>, ids: set<Value>, k: string)
    ensures Get(Restrict(fields, ids), k) == if Str(k) in ids then Get(fields, k) else None
    decreases |fields|
  {
    if fields != [] {
      var init, last := fields[..|fields| - 1], fields[|fields| - 1];
      var kept := if Str(last.key) in ids then [last] else [];
      RestrictGet(init, ids, k);
      GetAppend(Restrict(init, ids), kept, k);
      GetAppend(init, [last], k);
      assert fields == init + [last];
    }
  }

  /** The error raised when a definition has no `id`: `KeyError('id')`. */
  datatype KeyError = KeyError(key: string)

  /** `{field_def["id"] for field_def in field_definitions}` */
  function DefinitionIds(definitions: seq<seq<Entry>>): Result<set<Value>, KeyError> {
    if forall i :: 0 <= i < |definitions| ==> HasKey(definitions[i], "id") then
      Ok(set i | 0 <= i < |definitions| :: GetOr(definitions[i], "id", Null))
    else Err(KeyError("id"))
  }

  /** `_filter_fields_by_definitions`; `None` stands for a missing field map. */
  function FilterFieldsByDefinitions(fields: Option<seq<Entry>>, definitions: seq<seq<Entry>>)
    : (r: Result<seq<Entry>, KeyError>)
    ensures fields.None? || fields.value == [] ==> r == Ok([])
    ensures r.Err? ==> r.error == KeyError("id") && exists i :: 0 <= i < |definitions| && !HasKey(definitions[i], "id")
  {
    if fields.None? || fields.value == [] then Ok([])
    else match DefinitionIds(definitions)
      case Err(e) => Err(e)
      case Ok(ids) => Ok(Restrict(fields.value, ids))
  }

  /** A missing or empty map gives `{}`; otherwise a definition without an `id` is a `KeyError`,
      and the result is the map restricted to the definitions' ids, with values unchanged. */
  lemma FieldsByDefinitionsSpec(fields: Option<seq<Entry>>, definitions: seq<seq<Entry>>, k: string)
    ensures fields.None? || fields.value == [] ==> FilterFieldsByDefinitions(fields, definitions) == Ok([])
    ensures fields.Some? && fields.value != [] ==>
              (FilterFieldsByDefinitions(fields, definitions).Ok?
               <==> forall i :: 0 <= i < |definitions| ==> HasKey(definitions[i], "id"))
    ensures fields.Some? && FilterFieldsByDefinitions(fields, definitions).Ok? ==>
              Get(FilterFieldsByDefinitions(fields, definitions).value, k) ==
                if exists i :: 0 <= i < |definitions| && Get(definitions[i], "id") == Some(Str(k))
                then Get(fields.value, k) else None
  {
    if fields.Some? && fields.value != [] && DefinitionIds(definitions).Ok? {
      var ids := DefinitionIds(definitions).value;
      RestrictGet(fields.value, ids, k);
      if Str(k) in ids {
        var i :| 0 <= i < |definitions| && GetOr(definitions[i], "id", Null) == Str(k);
        assert Get(definitions[i], "id") == Some(Str(k));
      }
      if exists i :: 0 <= i < |definitions| && Get(definitions[i], "id") == Some(Str(k)) {
        var i :| 0 <= i < |definitions| && Get(definitions[i], "id") == Some(Str(k));
        assert GetOr(definitions[i], "id", Null) == Str(k);
      }
    }
  }
}
