/** `models/comment.py`: the validated inputs of the comment tools. Each model checks its
    fields in declaration order and reports every field that fails; for the text, the
    length constraints run first and the not-blank validator runs only when they pass. */
module Comments {
  import opened Values
  import opened Text

  const MaxCommentTextLength := 1000

  /** Why a field was refused. */
  datatype IssueKind =
    | GreaterThan(limit: int)   // `gt=0`
    | TooShort(minLength: nat)  // `min_length=1`
    | TooLong(maxLength: nat)   // `max_length=MAX_COMMENT_TEXT_LENGTH`
    | Blank                     // `text must not be blank`

  datatype Issue = Issue(field: string, kind: IssueKind)

  /** `Field(gt=0)` on an id field. */
  function IdIssues(field: string, id: int): seq<Issue> {
    if id > 0 then [] else [Issue(field, GreaterThan(0))]
  }

  /** The text field: its length bounds, then `text_not_blank` on the raw text. */
  function TextIssues(text: string): seq<Issue> {
    if |text| < 1 then [Issue("text", TooShort(1))]
    else if |text| > MaxCommentTextLength then [Issue("text", TooLong(MaxCommentTextLength))]
    else if Strip(text) == "" then [Issue("text", Blank)]
    else []
  }

  predicate TextAcceptable(text: string) {
    1 <= |text| <= MaxCommentTextLength && exists i :: 0 <= i < |text| && !IsSpace(text[i])
  }

  datatype CommentInput = CommentInput(cardId: int, text: string)
  datatype UpdateCommentInput = UpdateCommentInput(commentId: int, text: string)
  datatype DeleteCommentInput = DeleteCommentInput(commentId: int)

  /** `CommentInput(card_id=..., text=...)`: the model, or every issue found. */
  function NewCommentInput(cardId: int, text: string): (r: Result<CommentInput, seq<Issue>>)
    ensures r.Ok? ==> cardId > 0 && r.value == CommentInput(cardId, text)
    ensures cardId <= 0 ==> r.Err? && |r.error| >= 1 && r.error[0] == Issue("card_id", GreaterThan(0))
  {
    var issues := IdIssues("card_id", cardId) + TextIssues(text);
    if issues == [] then Ok(CommentInput(cardId, text)) else Err(issues)
  }

  /** `UpdateCommentInput(comment_id=..., text=...)` */
  function NewUpdateCommentInput(commentId: int, text: string): (r: Result<UpdateCommentInput, seq<Issue>>)
    ensures r.Ok? ==> commentId > 0 && r.value == UpdateCommentInput(commentId, text)
    ensures commentId <= 0 ==> r.Err? && |r.error| >= 1 && r.error[0] == Issue("comment_id", GreaterThan(0))
  {
    var issues := IdIssues("comment_id", commentId) + TextIssues(text);
    if issues == [] then Ok(UpdateCommentInput(commentId, text)) else Err(issues)
  }

  /** `DeleteCommentInput(comment_id=...)` */
  function NewDeleteCommentInput(commentId: int): (r: Result<DeleteCommentInput, seq<Issue>>)
    ensures r.Ok? <==> commentId > 0
    ensures r.Ok? ==> r.value == DeleteCommentInput(commentId)
    ensures r.Err? ==> r.error == [Issue("comment_id", GreaterThan(0))]
  {
    var issues := IdIssues("comment_id", commentId);
    if issues == [] then Ok(DeleteCommentInput(commentId)) else Err(issues)
  }

  /** The text passes exactly when it has 1 to 1000 characters and one of them is not whitespace. */
  lemma TextIssuesEmptyIff(text: string)
    ensures TextIssues(text) == [] <==> TextAcceptable(text)
    ensures |TextIssues(text)| <= 1
  {
    StripEmptyIff(text);
  }

  /** A comment input is accepted exactly when the card id is positive and the text is
      acceptable, and the accepted model holds the text as given, untrimmed. */
  lemma CommentInputValidIff(cardId: int, text: string)
    ensures NewCommentInput(cardId, text).Ok? <==> cardId > 0 && TextAcceptable(text)
    ensures NewCommentInput(cardId, text).Ok? ==> NewCommentInput(cardId, text).value == CommentInput(cardId, text)
  {
    TextIssuesEmptyIff(text);
  }

  /** A refused comment input reports at most one issue per field, the card id's first. */
  lemma CommentIssuesInFieldOrder(cardId: int, text: string)
    requires NewCommentInput(cardId, text).Err?
    ensures var issues := NewCommentInput(cardId, text).error;
            1 <= |issues| <= 2
            && (cardId <= 0 ==> issues[0] == Issue("card_id", GreaterThan(0)))
            && (!TextAcceptable(text) ==> issues[|issues| - 1].field == "text")
            && (cardId > 0 ==> issues[0].field == "text")
  {
    TextIssuesEmptyIff(text);
  }

  /** The update model applies the same text rules, with a positive comment id. */
  lemma UpdateCommentInputValidIff(commentId: int, text: string)
    ensures NewUpdateCommentInput(commentId, text).Ok? <==> commentId > 0 && TextAcceptable(text)
    ensures NewUpdateCommentInput(commentId, text).Ok? ==> NewUpdateCommentInput(commentId, text).value.text == text
  {
    TextIssuesEmptyIff(text);
  }

  /** The delete model is accepted exactly when the comment id is positive. */
  lemma DeleteCommentInputValidIff(commentId: int)
    ensures NewDeleteCommentInput(commentId).Ok? <==> commentId > 0
    ensures NewDeleteCommentInput(commentId).Err? ==>
              NewDeleteCommentInput(commentId).error == [Issue("comment_id", GreaterThan(0))]
  {
  }

  /** At the length boundary: 1000 characters pass, 1001 are refused as too long, whatever
      the (non-blank) character. */
  lemma LengthBoundary(cardId: int, c: char)
    requires cardId > 0 && !IsSpace(c)
    ensures NewCommentInput(cardId, seq(1000, _ => c)).Ok?
    ensures NewCommentInput(cardId, seq(1001, _ => c)) == Err([Issue("text", TooLong(1000))])
  {
    var s := seq(1000, _ => c);
    assert !IsSpace(s[0]);
    TextIssuesEmptyIff(s);
    var t := seq(1001, _ => c);
    assert TextIssues(t) == [Issue("text", TooLong(1000))];
    assert IdIssues("card_id", cardId) + TextIssues(t) == TextIssues(t);
  }

  /** Text that is all whitespace is refused as blank, not trimmed and kept. */
  lemma WhitespaceIsBlank(cardId: int, text: string)
    requires cardId > 0 && 1 <= |text| <= MaxCommentTextLength
    requires forall i :: 0 <= i < |text| ==> IsSpace(text[i])
    ensures NewCommentInput(cardId, text) == Err([Issue("text", Blank)])
    ensures NewUpdateCommentInput(cardId, text) == Err([Issue("text", Blank)])
  {
    StripEmptyIff(text);
    assert TextIssues(text) == [Issue("text", Blank)];
    assert IdIssues("card_id", cardId) + TextIssues(text) == TextIssues(text);
    assert IdIssues("comment_id", cardId) + TextIssues(text) == TextIssues(text);
  }

  /** The two whitespace texts the tests try, `"   "` and `"\n\t  "`, are blank; the empty
      text is too short. */
  lemma BlankExamples(cardId: int)
    requires cardId > 0
    ensures NewCommentInput(cardId, "   ") == Err([Issue("text", Blank)])
    ensures NewCommentInput(cardId, "\n\t  ") == Err([Issue("text", Blank)])
    ensures NewCommentInput(cardId, "") == Err([Issue("text", TooShort(1))])
  {
    WhitespaceIsBlank(cardId, "   ");
    WhitespaceIsBlank(cardId, "\n\t  ");
    assert IdIssues("card_id", cardId) + TextIssues("") == TextIssues("");
  }
}
