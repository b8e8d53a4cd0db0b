/** How the pipe tools turn a failed GraphQL call into a friendly message
    (`tools/pipe_tool_helpers.py`): the messages carried by the exception, the
    keyword classification of comment errors, the error codes and correlation
    id of delete-card errors, and the optional debug suffix. */
module ToolErrors {
  import opened Values
  import opened Text
  import Seqs
  import opened GraphQL

  // ---------------------------------------------------------------------------
  // Messages carried by an exception

  /** The message one item of `exc.errors` contributes: a dict's non-empty string
      `message`, or the item itself when it is a non-empty string. */
  function ItemMessage(item: Value): (r: seq<string>)
    ensures |r| <= 1
    ensures item.Str? && item.s != "" ==> r == [item.s]
    ensures (item.Dict? && Get(item.entries, "message").Some? && Get(item.entries, "message").value.Str?
             && Get(item.entries, "message").value.s != "") ==> r == [Get(item.entries, "message").value.s]
    ensures r != [] ==> r[0] != "" && ((item.Str? && r[0] == item.s)
                                       || (item.Dict? && Get(item.entries, "message") == Some(Str(r[0]))))
  {
    match item
    case Dict(d) =>
      (match GetOr(d, "message", Null)
       case Str(m) => if m != "" then [m] else []
       case _ => [])
    case Str(s) => if s != "" then [s] else []
    case _ => []
  }

  /** The messages of a list of error items, in list order. */
  function ItemMessages(items: seq<Value>): seq<string> {
    Seqs.FlatMap(items, ItemMessage)
  }

  /** One more item adds its message, if any, at the end. */
  lemma ItemMessagesSnoc(head: seq<string>, items: seq<Value>, i: nat)
    requires i < |items|
    ensures head + ItemMessages(items[..i + 1]) == head + ItemMessages(items[..i]) + ItemMessage(items[i])
  {
    Seqs.FlatMapSnoc(items, ItemMessage, i);
  }

  /** `getattr(exc, "errors", None)` when it is a list, and no items otherwise. */
  function ErrorItems(exc: Exc): seq<Value> {
    if exc.errors.List? then exc.errors.items else []
  }

  /** What `_extract_error_strings` returns: the exception text when non-empty,
      then the messages of the error items. */
  function ErrorStrings(exc: Exc): seq<string> {
    (if exc.text != "" then [exc.text] else []) + ItemMessages(ErrorItems(exc))
  }

  /** `_extract_error_strings` */
  method ExtractErrorStrings(exc: Exc) returns (messages: seq<string>)
    ensures messages == ErrorStrings(exc)
  {
    messages := [];
    var raw := exc.text;
    if raw != "" {
      messages := messages + [raw];
    }
    var head := messages;
    if exc.errors.List? {
      var items := exc.errors.items;
      var i := 0;
      while i < |items|
        invariant 0 <= i <= |items|
        invariant messages == head + ItemMessages(items[..i])
      {
        var item := items[i];
        ItemMessagesSnoc(head, items, i);
        if item.Dict? {
          var msg := GetOr(item.entries, "message", Null);
          if msg.Str? && msg.s != "" {
            assert ItemMessage(item) == [msg.s];
            messages := messages + [msg.s];
          } else {
            assert ItemMessage(item) == [];
          }
        } else if item.Str? && item.s != "" {
          assert ItemMessage(item) == [item.s];
          messages := messages + [item.s];
        } else {
          assert ItemMessage(item) == [];
        }
        i := i + 1;
      }
      assert items[..i] == items;
    }
  }

  /** A string is among the messages of the items exactly when some item contributes it. */
  lemma ItemMessagesSources(items: seq<Value>, m: string)
    ensures m in ItemMessages(items) <==> exists i :: 0 <= i < |items| && ItemMessage(items[i]) == [m]
  {
    Seqs.FlatMapMembership(items, ItemMessage, m);
  }

  /** Error strings are never empty, and the exception text comes first. */
  lemma ErrorStringsShape(exc: Exc)
    ensures forall m :: m in ErrorStrings(exc) ==> m != ""
    ensures exc.text != "" ==> ErrorStrings(exc)[0] == exc.text
    ensures exc.text == "" ==> ErrorStrings(exc) == ItemMessages(ErrorItems(exc))
    ensures !exc.errors.List? ==> ErrorStrings(exc) == (if exc.text != "" then [exc.text] else [])
  {
    forall m | m in ErrorStrings(exc) ensures m != "" {
      if m in ItemMessages(ErrorItems(exc)) {
        ItemMessagesSources(ErrorItems(exc), m);
      }
    }
  }

  // ---------------------------------------------------------------------------
  // Classification of comment errors

  const NotFoundMarkers: seq<string> :=
    ["not found", "record not found", "could not find", "does not exist", "doesn't exist"]

  const PermissionMarkers: seq<string> :=
    ["permission", "not authorized", "unauthorized", "forbidden", "access denied", "not allowed"]

  const InvalidInputMarkers: seq<string> :=
    ["invalid", "validation", "must be", "can't be", "cannot be", "required", "blank"]

  const InvalidInputMarkersNoBlank: seq<string> :=
    ["invalid", "validation", "must be", "can't be", "cannot be", "required"]

  /** The four messages a comment tool chooses between. */
  datatype ErrorMessages = ErrorMessages(notFound: string, permission: string, invalid: string, fallback: string)

  /** The lower-cased, space-joined error strings that the markers are looked for in. */
  function Haystack(exc: Exc): string {
    Lower(Join(" ", ErrorStrings(exc)))
  }

  /** `_map_comment_like_error`; `None` for `invalid_markers` selects the full invalid-input list. */
  function MapCommentLikeError(exc: Exc, msgs: ErrorMessages, invalidMarkers: Option<seq<string>>): (r: string)
    ensures r == msgs.notFound || r == msgs.permission || r == msgs.invalid || r == msgs.fallback
  {
    var haystack := Haystack(exc);
    var markers := if invalidMarkers.Some? then invalidMarkers.value else InvalidInputMarkers;
    if ContainsAny(haystack, NotFoundMarkers) then msgs.notFound
    else if ContainsAny(haystack, PermissionMarkers) then msgs.permission
    else if ContainsAny(haystack, markers) then msgs.invalid
    else msgs.fallback
  }

  const AddCardCommentMessages := ErrorMessages(
    "Card not found. Please verify 'card_id' and access permissions.",
    "You don't have permission to comment on this card.",
    "Invalid input. Please provide a valid 'card_id' and non-empty 'text'.",
    "Unexpected error while adding comment. Please try again.")

  const UpdateCommentMessages := ErrorMessages(
    "Comment not found. Please verify 'comment_id' and access permissions.",
    "You don't have permission to update this comment.",
    "Invalid input. Please provide a valid 'comment_id' and non-empty 'text'.",
    "Unexpected error while updating comment. Please try again.")

  const DeleteCommentMessages := ErrorMessages(
    "Comment not found. Please verify 'comment_id' and access permissions.",
    "You don't have permission to delete this comment.",
    "Invalid input. Please provide a valid 'comment_id'.",
    "Unexpected error while deleting comment. Please try again.")

  /** `map_add_card_comment_error_to_message` */
  function MapAddCardCommentError(exc: Exc): (r: string)
    ensures r == AddCardCommentMessages.notFound || r == AddCardCommentMessages.permission
         || r == AddCardCommentMessages.invalid || r == AddCardCommentMessages.fallback
  {
    MapCommentLikeError(exc, AddCardCommentMessages, None)
  }

  /** `map_update_comment_error_to_message` */
  function MapUpdateCommentError(exc: Exc): (r: string)
    ensures r == UpdateCommentMessages.notFound || r == UpdateCommentMessages.permission
         || r == UpdateCommentMessages.invalid || r == UpdateCommentMessages.fallback
  {
    MapCommentLikeError(exc, UpdateCommentMessages, None)
  }

  /** `map_delete_comment_error_to_message`: "blank" does not count as invalid input. */
  function MapDeleteCommentError(exc: Exc): (r: string)
    ensures r == DeleteCommentMessages.notFound || r == DeleteCommentMessages.permission
         || r == DeleteCommentMessages.invalid || r == DeleteCommentMessages.fallback
  {
    MapCommentLikeError(exc, DeleteCommentMessages, Some(InvalidInputMarkersNoBlank))
  }

  /** A marker found, in any case, in any single error string decides the category unless a
      marker of a category checked earlier occurs somewhere in the joined haystack. */
  lemma MarkerInMessageDecides(exc: Exc, msgs: ErrorMessages, invalidMarkers: Option<seq<string>>,
                               s: string, m: string)
    requires s in ErrorStrings(exc) && Contains(Lower(s), m)
    ensures var r := MapCommentLikeError(exc, msgs, invalidMarkers);
            var h := Haystack(exc);
            var markers := if invalidMarkers.Some? then invalidMarkers.value else InvalidInputMarkers;
            && (m in NotFoundMarkers ==> r == msgs.notFound)
            && (m in PermissionMarkers && !ContainsAny(h, NotFoundMarkers) ==> r == msgs.permission)
            && (m in markers && !ContainsAny(h, NotFoundMarkers) && !ContainsAny(h, PermissionMarkers)
                ==> r == msgs.invalid)
  {
    var k :| 0 <= k < |ErrorStrings(exc)| && ErrorStrings(exc)[k] == s;
    LowerJoinContains(" ", ErrorStrings(exc), k, m);
  }

  /** The converse fails: the haystack joins the strings with spaces, so a marker split over two
      error items still decides. The items `"not"` and `"found"` give the not-found message,
      though neither holds a not-found marker. */
  lemma MarkerAcrossMessages(msgs: ErrorMessages, invalidMarkers: Option<seq<string>>)
    ensures var exc := Exc("", List([Str("not"), Str("found")]));
            && ErrorStrings(exc) == ["not", "found"]
            && !ContainsAny(Lower("not"), NotFoundMarkers) && !ContainsAny(Lower("found"), NotFoundMarkers)
            && MapCommentLikeError(exc, msgs, invalidMarkers) == msgs.notFound
  {
    var exc := Exc("", List([Str("not"), Str("found")]));
    SplitMarkerHaystack();
    ShortTextHoldsNoNotFoundMarker(Lower("not"));
    ShortTextHoldsNoNotFoundMarker(Lower("found"));
    assert Contains("not found", NotFoundMarkers[0]);
  }

  /** A text of at most five characters is too short to hold a not-found marker. */
  lemma ShortTextHoldsNoNotFoundMarker(u: string)
    requires |u| <= 5
    ensures !ContainsAny(u, NotFoundMarkers)
  {
    forall m | m in NotFoundMarkers ensures !Contains(u, m) {
      assert |m| > 5;
    }
  }

  /** The error strings and the haystack of the items `"not"` and `"found"`. */
  lemma SplitMarkerHaystack()
    ensures var exc := Exc("", List([Str("not"), Str("found")]));
            ErrorStrings(exc) == ["not", "found"] && Haystack(exc) == "not found"
  {
    var exc := Exc("", List([Str("not"), Str("found")]));
    SplitMarkerItems();
    assert ErrorStrings(exc) == ["not", "found"];
    assert Join(" ", ["not", "found"]) == "not found";
    LowerOfLowerCase("not found");
  }

  /** The two items each contribute their text. */
  lemma SplitMarkerItems()
    ensures ItemMessages([Str("not"), Str("found")]) == ["not", "found"]
  {
    var items := [Str("not"), Str("found")];
    Seqs.FlatMapSnoc(items, ItemMessage, 0);
    Seqs.FlatMapSnoc(items, ItemMessage, 1);
    assert items[..0] == [] && items[..2] == items;
    assert ItemMessage(items[0]) == ["not"];
    assert ItemMessage(items[1]) == ["found"];
  }

  /** Lower-casing a joined list depends on its first string only through that string's lower case. */
  lemma LowerJoinFirst(sep: string, x: string, y: string, rest: seq<string>)
    requires Lower(x) == Lower(y)
    ensures Lower(Join(sep, [x] + rest)) == Lower(Join(sep, [y] + rest))
  {
    if rest == [] {
      assert [x] + rest == [x] && [y] + rest == [y];
    } else {
      var t := sep + Join(sep, rest);
      assert ([x] + rest)[1..] == rest && ([y] + rest)[1..] == rest;
      assert Join(sep, [x] + rest) == x + t;
      assert Join(sep, [y] + rest) == y + t;
      CaseMapsAppend(x, t);
      CaseMapsAppend(y, t);
    }
  }

  /** Matching ignores case: shouting the exception text changes no message. */
  lemma CommentErrorIgnoresCase(text: string, errors: Value, msgs: ErrorMessages, markers: Option<seq<string>>)
    ensures MapCommentLikeError(Exc(Upper(text), errors), msgs, markers) == MapCommentLikeError(Exc(text, errors), msgs, markers)
  {
    var loud, quiet := Exc(Upper(text), errors), Exc(text, errors);
    var rest := ItemMessages(ErrorItems(quiet));
    assert ErrorItems(loud) == ErrorItems(quiet);
    if text != "" {
      assert Upper(text) != "";
      LowerOfUpper(text);
      LowerJoinFirst(" ", Upper(text), text, rest);
    } else {
      assert Upper(text) == text;
    }
  }

  /** Every marker is longer than the word "blank". */
  lemma MarkersLongerThanBlank()
    ensures forall i :: 0 <= i < |NotFoundMarkers| ==> |NotFoundMarkers[i]| > 5
    ensures forall i :: 0 <= i < |PermissionMarkers| ==> |PermissionMarkers[i]| > 5
    ensures forall i :: 0 <= i < |InvalidInputMarkersNoBlank| ==> |InvalidInputMarkersNoBlank[i]| > 5
  {
  }

  /** Lower-casing leaves a string without capitals as it is. */
  lemma {:induction false} LowerOfLowerCase(s: string)
    requires forall i :: 0 <= i < |s| ==> !IsUpperLetter(s[i])
    ensures Lower(s) == s
    decreases |s|
  {
    if s != [] {
      LowerOfLowerCase(s[1..]);
    }
  }

  /** An error saying only "blank" is invalid input when adding or updating a comment,
      but an unexpected error when deleting one. */
  lemma BlankOnlyInvalidWhenWriting()
    ensures MapAddCardCommentError(Exc("blank", Null)) == AddCardCommentMessages.invalid
    ensures MapUpdateCommentError(Exc("blank", Null)) == UpdateCommentMessages.invalid
    ensures MapDeleteCommentError(Exc("blank", Null)) == DeleteCommentMessages.fallback
  {
    BlankHaystack();
  }

  /** The haystack of an error saying only "blank" is that word, which holds no marker but "blank". */
  lemma BlankHaystack()
    ensures Haystack(Exc("blank", Null)) == "blank"
    ensures !ContainsAny("blank", NotFoundMarkers) && !ContainsAny("blank", PermissionMarkers)
    ensures !ContainsAny("blank", InvalidInputMarkersNoBlank) && ContainsAny("blank", InvalidInputMarkers)
  {
    var exc := Exc("blank", Null);
    assert ErrorStrings(exc) == ["blank"];
    assert Join(" ", ["blank"]) == "blank";
    LowerOfLowerCase("blank");
    MarkersLongerThanBlank();
    assert Contains("blank", InvalidInputMarkers[6]);
  }

  /** A not-found marker in the exception text, in any case, decides the message whatever
      the error items say. */
  lemma NotFoundInTextDecides(exc: Exc, msgs: ErrorMessages, markers: Option<seq<string>>, m: string)
    requires m in NotFoundMarkers && Contains(Lower(exc.text), m)
    ensures MapCommentLikeError(exc, msgs, markers) == msgs.notFound
  {
    var rest := ItemMessages(ErrorItems(exc));
    assert exc.text != [];
    assert ErrorStrings(exc) == [exc.text] + rest;
    assert ([exc.text] + rest)[1..] == rest;
    if rest == [] {
      assert Join(" ", ErrorStrings(exc)) == exc.text;
    } else {
      assert Join(" ", ErrorStrings(exc)) == exc.text + (" " + Join(" ", rest));
      CaseMapsAppend(exc.text, " " + Join(" ", rest));
      ContainsExtend(Lower(exc.text), Lower(" " + Join(" ", rest)), m);
    }
  }

  // ---------------------------------------------------------------------------
  // Error codes and correlation id

  /** `item["extensions"]["code"]` when the item and its extensions are dicts and the
      code is a non-empty string. */
  function ExtensionCode(item: Value): (r: seq<string>)
    ensures |r| <= 1
    ensures r != [] <==> CarriedCode(item).Some?
    ensures r != [] ==> r == [CarriedCode(item).value]
  {
    if !item.Dict? then []
    else match GetOr(item.entries, "extensions", Null)
      case Dict(ext) =>
        (match GetOr(ext, "code", Null)
         case Str(c) => if c != "" then [c] else []
         case _ => [])
      case _ => []
  }

  /** The plain-lookup reading of the condition `ExtensionCode` tests with `.get` defaults: the
      code is present when the item and its extensions are dicts and the code is a non-empty
      string. It states the same condition once more, so that the contract of `ExtensionCode`
      reads as lookups rather than as its own `match`. */
  function CarriedCode(item: Value): Option<string> {
    if !item.Dict? then None
    else
      var ext := Get(item.entries, "extensions");
      if ext.None? || !ext.value.Dict? then None
      else
        var code := Get(ext.value.entries, "code");
        if code.Some? && code.value.Str? && code.value.s != "" then Some(code.value.s) else None
  }

  /** The extension codes of a list of error items, in list order. */
  function ExtensionCodes(items: seq<Value>): seq<string> {
    Seqs.FlatMap(items, ExtensionCode)
  }

  predicate IsQuote(c: char) { c == '\'' || c == '"' }

  predicate IsCodeChar(c: char) { 'A' <= c <= 'Z' || c == '_' }

  /** The class of the captured run: `[A-Z_]` for codes, `[^'"]` otherwise. */
  predicate InRun(c: char, codes: bool) {
    if codes then IsCodeChar(c) else !IsQuote(c)
  }

  /** The end of the whitespace run starting at `p` (`\s*`). */
  function SkipSpaces(s: string, p: nat): (r: nat)
    requires p <= |s|
    ensures p <= r <= |s|
    ensures forall i :: p <= i < r ==> IsSpace(s[i])
    ensures r < |s| ==> !IsSpace(s[r])
    decreases |s| - p
  {
    if p < |s| && IsSpace(s[p]) then SkipSpaces(s, p + 1) else p
  }

  /** The end of the run of `InRun` characters starting at `p`. */
  function RunEnd(s: string, p: nat, codes: bool): (r: nat)
    requires p <= |s|
    ensures p <= r <= |s|
    ensures forall i :: p <= i < r ==> InRun(s[i], codes)
    ensures r < |s| ==> !InRun(s[r], codes)
    decreases |s| - p
  {
    if p < |s| && InRun(s[p], codes) then RunEnd(s, p + 1, codes) else p
  }

  /** A match of the pattern and the position just after it. */
  datatype Capture = Capture(value: string, end: nat)

  /** A match at `p` of ``['"]key['"]\s*[:=]\s*['"](run+)['"]``. The runs are greedy and
      each is followed by a character outside its class, so the first attempt is the only one. */
  function MatchAt(s: string, p: nat, key: string, codes: bool): (r: Option<Capture>)
    requires p <= |s|
    ensures r.Some? ==> p < r.value.end <= |s|
    ensures r.Some? ==> r.value.value != [] && forall i :: 0 <= i < |r.value.value| ==> InRun(r.value.value[i], codes)
  {
    if p + |key| + 2 > |s| then None
    else if !IsQuote(s[p]) || s[p + 1..p + 1 + |key|] != key || !IsQuote(s[p + 1 + |key|]) then None
    else
      var a := SkipSpaces(s, p + 2 + |key|);
      if a == |s| || !(s[a] == ':' || s[a] == '=') then None
      else
        var b := SkipSpaces(s, a + 1);
        if b == |s| || !IsQuote(s[b]) then None
        else
          var e := RunEnd(s, b + 1, codes);
          if e == b + 1 || e == |s| || !IsQuote(s[e]) then None
          else Some(Capture(s[b + 1..e], e + 1))
  }

  /** `re.findall` of the code pattern from position `p`: scanning resumes after each match. */
  function FindCodes(s: string, p: nat): seq<string>
    requires p <= |s|
    decreases |s| - p
  {
    if p == |s| then []
    else match MatchAt(s, p, "code", true)
      case Some(c) => [c.value] + FindCodes(s, c.end)
      case None => FindCodes(s, p + 1)
  }

  /** Codes read from the text are non-empty runs of capitals and underscores. */
  lemma {:induction false} FindCodesWellFormed(s: string, p: nat)
    requires p <= |s|
    ensures forall c :: c in FindCodes(s, p) ==> c != "" && forall i :: 0 <= i < |c| ==> IsCodeChar(c[i])
    decreases |s| - p
  {
    if p < |s| {
      var m := MatchAt(s, p, "code", true);
      if m.Some? {
        FindCodesWellFormed(s, m.value.end);
        assert FindCodes(s, p) == [m.value.value] + FindCodes(s, m.value.end);
      } else {
        FindCodesWellFormed(s, p + 1);
        assert FindCodes(s, p) == FindCodes(s, p + 1);
      }
    }
  }

  /** The codes `_extract_graphql_error_codes` collects before removing repeats:
      extension codes, then codes read from the text. */
  function CollectedCodes(exc: Exc): seq<string> {
    ExtensionCodes(ErrorItems(exc)) + (if exc.text != "" then FindCodes(exc.text, 0) else [])
  }

  /** What `_extract_graphql_error_codes` returns. */
  function ErrorCodes(exc: Exc): seq<string> {
    Seqs.Dedup(CollectedCodes(exc))
  }

  /** `_extract_graphql_error_codes` */
  method ExtractGraphqlErrorCodes(exc: Exc) returns (unique: seq<string>)
    ensures unique == ErrorCodes(exc)
  {
    var codes: seq<string> := [];
    if exc.errors.List? {
      var items := exc.errors.items;
      var i := 0;
      while i < |items|
        invariant 0 <= i <= |items|
        invariant codes == ExtensionCodes(items[..i])
      {
        var item := items[i];
        Seqs.FlatMapSnoc(items, ExtensionCode, i);
        if item.Dict? {
          var extensions := GetOr(item.entries, "extensions", Null);
          if extensions.Dict? {
            var code := GetOr(extensions.entries, "code", Null);
            if code.Str? && code.s != "" {
              codes := codes + [code.s];
            }
          }
        }
        i := i + 1;
      }
      assert items[..i] == items;
    }
    var raw := exc.text;
    if raw != "" {
      var matches := FindCodes(raw, 0);
      var head := codes;
      for j := 0 to |matches|
        invariant codes == head + matches[..j]
      {
        assert matches[..j + 1] == matches[..j] + [matches[j]];
        codes := codes + [matches[j]];
      }
      assert matches[..|matches|] == matches;
    }
    assert codes == CollectedCodes(exc);
    unique := DedupInOrder(codes);
  }

  /** The de-duplication loop of `_extract_graphql_error_codes`, with its `seen` set. */
  method DedupInOrder(codes: seq<string>) returns (unique: seq<string>)
    ensures unique == Seqs.Dedup(codes)
  {
    var seen: set<string> := {};
    unique := [];
    for k := 0 to |codes|
      invariant forall c :: c in seen <==> c in codes[..k]
      invariant unique == Seqs.Dedup(codes[..k])
    {
      var code := codes[k];
      assert codes[..k + 1][..k] == codes[..k];
      assert codes[..k + 1] == codes[..k] + [code];
      if code !in seen {
        seen := seen + {code};
        unique := unique + [code];
      }
    }
    assert codes[..|codes|] == codes;
  }

  /** The codes have no repeats, keep first-occurrence order, and the extension codes
      (de-duplicated) come before any code read from the text. */
  lemma ErrorCodesShape(exc: Exc, x: string, y: string)
    ensures forall i, j :: 0 <= i < j < |ErrorCodes(exc)| ==> ErrorCodes(exc)[i] != ErrorCodes(exc)[j]
    ensures Seqs.Dedup(ExtensionCodes(ErrorItems(exc))) <= ErrorCodes(exc)
    ensures x in ErrorCodes(exc) <==> x in CollectedCodes(exc)
    ensures x in CollectedCodes(exc) && y in CollectedCodes(exc) ==>
              x in ErrorCodes(exc) && y in ErrorCodes(exc) &&
              (Seqs.IndexOf(ErrorCodes(exc), x) < Seqs.IndexOf(ErrorCodes(exc), y)
               <==> Seqs.IndexOf(CollectedCodes(exc), x) < Seqs.IndexOf(CollectedCodes(exc), y))
  {
    var all := CollectedCodes(exc);
    Seqs.DedupNoDuplicates(all);
    Seqs.DedupPrefix(ExtensionCodes(ErrorItems(exc)), if exc.text != "" then FindCodes(exc.text, 0) else []);
    Seqs.DedupMembership(all, x);
    if x in all && y in all {
      Seqs.DedupFirstOccurrenceOrder(all, x, y);
    }
  }

  /** An error item contributes its extension code exactly when it has a non-empty string one. */
  lemma ExtensionCodesSources(items: seq<Value>, c: string)
    ensures c in ExtensionCodes(items) <==> exists i :: 0 <= i < |items| && ExtensionCode(items[i]) == [c]
  {
    Seqs.FlatMapMembership(items, ExtensionCode, c);
  }

  /** The capture of the correlation-id pattern when it matches at position `q`. */
  function CorrelationCapture(s: string, q: nat): (r: Option<string>)
    ensures r.Some? ==> q < |s| && r.value != "" && forall i :: 0 <= i < |r.value| ==> !IsQuote(r.value[i])
  {
    if q < |s| then
      match MatchAt(s, q, "correlation_id", false)
      case Some(c) => Some(c.value)
      case None => None
    else None
  }

  /** Whether the correlation-id pattern matches at a position of `s`. */
  function CorrelationHit(s: string): nat -> bool {
    (q: nat) => CorrelationCapture(s, q).Some?
  }

  /** `re.search` of the correlation-id pattern from position `p`: the capture of the first
      position at which the pattern matches. */
  function SearchCorrelationId(s: string, p: nat): (r: Option<string>)
    requires p <= |s|
    ensures r.Some? ==> r.value != "" && forall i :: 0 <= i < |r.value| ==> !IsQuote(r.value[i])
  {
    match Seqs.FirstIndex(|s|, p, CorrelationHit(s))
    case Some(q) => CorrelationCapture(s, q)
    case None => None
  }

  /** `_extract_graphql_correlation_id` */
  function CorrelationId(exc: Exc): (r: Option<string>)
    ensures exc.text == "" ==> r == None
    ensures r.Some? ==> r.value != "" && forall i :: 0 <= i < |r.value| ==> !IsQuote(r.value[i])
  {
    if exc.text == "" then None else SearchCorrelationId(exc.text, 0)
  }

  /** `re.search`: the search from `p` returns the capture of the first position at which the
      pattern matches, and nothing exactly when it matches nowhere from `p` on. */
  lemma SearchCorrelationIdFirstMatch(s: string, p: nat)
    requires p <= |s|
    ensures SearchCorrelationId(s, p).None? <==> forall q :: p <= q < |s| ==> CorrelationCapture(s, q).None?
    ensures SearchCorrelationId(s, p).Some? ==>
              exists q :: p <= q < |s| && CorrelationCapture(s, q) == SearchCorrelationId(s, p)
                && forall q' :: p <= q' < q ==> CorrelationCapture(s, q').None?
  {
    var hit := CorrelationHit(s);
    assert forall q: nat :: hit(q) == CorrelationCapture(s, q).Some?;
    Seqs.FirstIndexIsFirst(|s|, p, hit);
    var k := Seqs.FirstIndex(|s|, p, hit);
    if k.Some? {
      var q := k.value;
      assert CorrelationCapture(s, q) == SearchCorrelationId(s, p);
      assert forall q' :: p <= q' < q ==> CorrelationCapture(s, q').None?;
    } else {
      assert SearchCorrelationId(s, p) == None;
    }
  }

  /** The correlation id is the capture of the first match in the exception text, and there is
      none exactly when the text is empty or the pattern matches nowhere in it. */
  lemma CorrelationIdFirstMatch(exc: Exc)
    ensures var s := exc.text;
            CorrelationId(exc).None? <==> (s == "" || forall q :: 0 <= q < |s| ==> CorrelationCapture(s, q).None?)
    ensures var s := exc.text;
            CorrelationId(exc).Some? ==>
              exists q :: 0 <= q < |s| && CorrelationCapture(s, q) == CorrelationId(exc)
                && forall q' :: 0 <= q' < q ==> CorrelationCapture(s, q').None?
  {
    SearchCorrelationIdFirstMatch(exc.text, 0);
  }

  /** The scan of a run ends at the first character outside the run's class. */
  lemma RunEndAt(s: string, p: nat, q: nat, codes: bool)
    requires p <= q < |s|
    requires forall i :: p <= i < q ==> InRun(s[i], codes)
    requires !InRun(s[q], codes)
    ensures RunEnd(s, p, codes) == q
  {
  }

  /** The JSON-style text `{"key": "value"}`. */
  function Quoted(key: string, v: string): string {
    "{\"" + key + "\": \"" + v + "\"}"
  }

  /** Where the pieces of `{"key": "value"}` sit. */
  lemma QuotedLayout(key: string, v: string)
    ensures var s := Quoted(key, v);
            var k := |key|;
            && |s| == 8 + k + |v|
            && s[0] == '{' && s[1] == '"' && s[2..2 + k] == key && s[2 + k] == '"'
            && s[3 + k] == ':' && s[4 + k] == ' ' && s[5 + k] == '"'
            && s[6 + k..6 + k + |v|] == v && s[6 + k + |v|] == '"' && s[7 + k + |v|] == '}'
  {
    var a, b, c := "{\"", "\": \"", "\"}";
    var s := a + key + b + v + c;
    var k := |key|;
    assert s == (a + key) + (b + v + c);
    assert s == (a + key + b) + v + c;
    assert (a + key)[2..2 + k] == key;
    assert (b + v + c)[..4] == b;
    assert (b + v + c)[4..4 + |v|] == v;
    assert (b + v + c)[4 + |v|] == '"';
  }

  /** In `{"key": "value"}` the pattern for `key` matches at the opening quote and captures
      the value, ending just before the closing brace; it does not match at the brace. */
  lemma MatchQuotedValue(key: string, v: string, codes: bool)
    requires v != [] && forall i :: 0 <= i < |v| ==> InRun(v[i], codes)
    ensures var s := Quoted(key, v);
            MatchAt(s, 1, key, codes) == Some(Capture(v, |s| - 1))
            && MatchAt(s, 0, key, codes) == None
  {
    var s := Quoted(key, v);
    var k := |key|;
    QuotedLayout(key, v);
    assert !IsQuote(s[0]);
    var a := SkipSpaces(s, 3 + k);
    assert a == 3 + k;
    var b := SkipSpaces(s, a + 1);
    assert b == 5 + k;
    RunEndAt(s, b + 1, 6 + k + |v|, codes);
  }

  /** Scanning `{"code": "X"}` finds the one match, at the opening quote of the key. */
  lemma FindCodesInQuoted(x: string)
    requires x != [] && forall i :: 0 <= i < |x| ==> IsCodeChar(x[i])
    ensures FindCodes(Quoted("code", x), 0) == [x]
  {
    var s := Quoted("code", x);
    QuotedLayout("code", x);
    MatchQuotedValue("code", x, true);
    assert MatchAt(s, 0, "code", true) == None;
    assert MatchAt(s, 1, "code", true) == Some(Capture(x, |s| - 1));
    assert FindCodes(s, |s|) == [];
    assert FindCodes(s, 0) == FindCodes(s, 1);
    assert FindCodes(s, 1) == [x] + FindCodes(s, |s| - 1);
    assert MatchAt(s, |s| - 1, "code", true) == None;
  }

  /** A text `{"code": "X"}` for a word X of capitals and underscores yields exactly the code X. */
  lemma CodeReadFromText(x: string)
    requires x != [] && forall i :: 0 <= i < |x| ==> IsCodeChar(x[i])
    ensures ErrorCodes(Exc(Quoted("code", x), Null)) == [x]
  {
    var exc := Exc(Quoted("code", x), Null);
    FindCodesInQuoted(x);
    assert CollectedCodes(exc) == [x];
    assert Seqs.Dedup([x]) == Seqs.Dedup([x][..0]) + [x];
  }

  /** A text `{"correlation_id": "V"}` for a non-empty V without quotes yields V. */
  lemma CorrelationIdReadFromText(v: string)
    requires v != [] && forall i :: 0 <= i < |v| ==> !IsQuote(v[i])
    ensures CorrelationId(Exc(Quoted("correlation_id", v), Null)) == Some(v)
  {
    var s := Quoted("correlation_id", v);
    MatchQuotedValue("correlation_id", v, false);
    QuotedLayout("correlation_id", v);
    assert CorrelationCapture(s, 0) == None;
    assert CorrelationCapture(s, 1) == Some(v);
    assert Seqs.FirstIndex(|s|, 0, CorrelationHit(s)) == Some(1);
  }

  // ---------------------------------------------------------------------------
  // Debug suffix and delete-card messages

  /** The debug parts `_with_debug_suffix` collects: the codes, then a non-empty correlation id. */
  function DebugParts(codes: seq<string>, correlationId: Option<string>): seq<string> {
    (if codes != [] then ["codes=" + Join(",", codes)] else [])
    + (if correlationId.Some? && correlationId.value != "" then ["correlation_id=" + correlationId.value] else [])
  }

  /** `_with_debug_suffix` */
  method WithDebugSuffix(message: string, debug: bool, codes: seq<string>, correlationId: Option<string>)
    returns (r: string)
    ensures var parts := DebugParts(codes, correlationId);
            r == if !debug || parts == [] then message else message + " (debug: " + Join("; ", parts) + ")"
  {
    if !debug {
      return message;
    }
    var parts: seq<string> := [];
    if codes != [] {
      parts := parts + ["codes=" + Join(",", codes)];
    }
    if correlationId.Some? && correlationId.value != "" {
      parts := parts + ["correlation_id=" + correlationId.value];
    }
    if parts == [] {
      return message;
    }
    r := message + " (debug: " + Join("; ", parts) + ")";
  }

  /** The message is returned unchanged unless `debug` is set and there is something to add;
      otherwise the codes (joined by ",") and the correlation id follow it, separated by "; ". */
  lemma DebugSuffixOutput(message: string, debug: bool, codes: seq<string>, correlationId: Option<string>)
    ensures var parts := DebugParts(codes, correlationId);
            var r := if !debug || parts == [] then message else message + " (debug: " + Join("; ", parts) + ")";
            var hasId := correlationId.Some? && correlationId.value != "";
            var codesPart := "codes=" + Join(",", codes);
            var idPart := "correlation_id=" + (if hasId then correlationId.value else "");
            && (!debug || (codes == [] && !hasId) ==> r == message)
            && (debug && codes != [] && !hasId ==> r == message + " (debug: " + codesPart + ")")
            && (debug && codes == [] && hasId ==> r == message + " (debug: " + idPart + ")")
            && (debug && codes != [] && hasId ==> r == message + " (debug: " + codesPart + "; " + idPart + ")")
  {
    var parts := DebugParts(codes, correlationId);
    if |parts| == 2 {
      assert parts[1..] == [parts[1]];
      var codesPart, idPart := parts[0], parts[1];
      assert Join("; ", parts) == codesPart + "; " + idPart;
      assert message + " (debug: " + (codesPart + "; " + idPart) + ")"
          == message + " (debug: " + codesPart + "; " + idPart + ")";
    }
  }

  predicate IsRecognisedCode(code: string) {
    code == "RESOURCE_NOT_FOUND" || code == "PERMISSION_DENIED" || code == "RECORD_NOT_DESTROYED"
  }

  function GenericDeleteCardFailure(cardId: int, title: string): string {
    "Failed to delete card '" + title + "' (ID: " + IntToString(cardId) + "). Please try again or contact support."
  }

  /** The message for a recognised delete-card error code. */
  function RecognisedCodeMessage(code: string, cardId: int, title: string): string
    requires IsRecognisedCode(code)
  {
    if code == "RESOURCE_NOT_FOUND" then
      "Card with ID " + IntToString(cardId) + " not found. Verify the card exists and you have access permissions."
    else if code == "PERMISSION_DENIED" then
      "You don't have permission to delete card " + IntToString(cardId) + ". Please check your access permissions."
    else
      GenericDeleteCardFailure(cardId, title)
  }

  /** The message after the scan found no recognised code: the codes listed, or the generic one. */
  function UnrecognisedCodesMessage(codes: seq<string>, cardId: int, title: string): string {
    if codes != [] then
      "Failed to delete card '" + title + "' (ID: " + IntToString(cardId) + "). Codes: " + Join(", ", codes)
    else GenericDeleteCardFailure(cardId, title)
  }

  /** The loop of `map_delete_card_error_to_message`: the index of the first recognised code
      at or after `i`, if any. */
  function FirstRecognised(codes: seq<string>, i: nat): (r: Option<nat>)
    requires i <= |codes|
    ensures r.Some? ==> i <= r.value < |codes| && IsRecognisedCode(codes[r.value])
    decreases |codes| - i
  {
    if i == |codes| then None
    else if IsRecognisedCode(codes[i]) then Some(i)
    else FirstRecognised(codes, i + 1)
  }

  /** `map_delete_card_error_to_message`: the message of the code the loop stops at, or the
      message after the loop. */
  function MapDeleteCardError(cardId: int, title: string, codes: seq<string>): (r: string)
    ensures codes == [] ==> r == GenericDeleteCardFailure(cardId, title)
    ensures codes != [] && IsRecognisedCode(codes[0]) ==> r == RecognisedCodeMessage(codes[0], cardId, title)
  {
    match FirstRecognised(codes, 0)
    case Some(k) => RecognisedCodeMessage(codes[k], cardId, title)
    case None => UnrecognisedCodesMessage(codes, cardId, title)
  }

  /** `map_delete_card_error_to_message` as the source runs it: a loop over the codes that
      returns at the first recognised one, then the messages after the loop. */
  method MapDeleteCardErrorToMessage(cardId: int, title: string, codes: seq<string>) returns (msg: string)
    ensures msg == MapDeleteCardError(cardId, title, codes)
  {
    var i := 0;
    while i < |codes|
      invariant 0 <= i <= |codes|
      invariant FirstRecognised(codes, i) == FirstRecognised(codes, 0)
    {
      if IsRecognisedCode(codes[i]) {
        return RecognisedCodeMessage(codes[i], cardId, title);
      }
      i := i + 1;
    }
    msg := UnrecognisedCodesMessage(codes, cardId, title);
  }

  /** The scan stops at the smallest recognised index at or after `i`, and finds nothing
      exactly when no code from `i` on is recognised. */
  lemma {:induction false} FirstRecognisedIsFirst(codes: seq<string>, i: nat)
    requires i <= |codes|
    ensures FirstRecognised(codes, i).None? <==> forall j :: i <= j < |codes| ==> !IsRecognisedCode(codes[j])
    ensures FirstRecognised(codes, i).Some? ==>
              var k := FirstRecognised(codes, i).value;
              IsRecognisedCode(codes[k]) && forall j :: i <= j < k ==> !IsRecognisedCode(codes[j])
    decreases |codes| - i
  {
    if i < |codes| {
      FirstRecognisedIsFirst(codes, i + 1);
    }
  }

  /** The first recognised code in list order decides the message; with none recognised,
      a non-empty list is quoted joined by ", " and an empty one gives the generic message. */
  lemma DeleteCardErrorFirstRecognisedWins(cardId: int, title: string, codes: seq<string>)
    ensures forall k :: 0 <= k < |codes| && IsRecognisedCode(codes[k])
              && (forall j :: 0 <= j < k ==> !IsRecognisedCode(codes[j]))
              ==> MapDeleteCardError(cardId, title, codes) == RecognisedCodeMessage(codes[k], cardId, title)
    ensures (forall j :: 0 <= j < |codes| ==> !IsRecognisedCode(codes[j])) ==>
              MapDeleteCardError(cardId, title, codes) ==
                if codes != [] then
                  "Failed to delete card '" + title + "' (ID: " + IntToString(cardId) + "). Codes: " + Join(", ", codes)
                else GenericDeleteCardFailure(cardId, title)
  {
    FirstRecognisedIsFirst(codes, 0);
    forall k | 0 <= k < |codes| && IsRecognisedCode(codes[k]) && (forall j :: 0 <= j < k ==> !IsRecognisedCode(codes[j]))
      ensures MapDeleteCardError(cardId, title, codes) == RecognisedCodeMessage(codes[k], cardId, title)
    {
      assert FirstRecognised(codes, 0).value == k;
    }
  }

}
