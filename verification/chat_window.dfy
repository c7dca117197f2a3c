/**
 * The chat window's session: the message log restored from and written back to
 * the session entry `chatMessages`, the input line, the two scoping filters, the
 * pending flag of the one question in flight, and the selections behind the
 * context and evaluation pop-ups.
 *
 * Clock readings, the outcome of a dispatched question and whether a storage
 * write succeeds are supplied by the environment as parameters.
 */
module ChatWindow {
  import opened Wrappers
  import opened Api
  import opened JsText
  import EvaluationModal

  datatype Sender = User | Bot

  /**
   * A message's `contextData`: the property absent (`undefined`), `null`, or
   * the response the answer came with.
   */
  datatype Evidence = Missing | Null | Attached(response: QueryResponse)

  /** A message; `timestamp` is its `Date` in milliseconds since the epoch. */
  datatype Message = Message(id: string, text: string, sender: Sender, timestamp: int, contextData: Evidence)

  /**
   * The session entry `chatMessages`: absent or empty, not a JSON array of
   * messages, or the list of messages it encodes.
   */
  datatype Store = Absent | Corrupt | Stored(log: seq<Message>)

  const GreetingId: string := "1"
  const Greeting: string :=
    "Hello! \U{1F44B} I'm your HRCare RAG-powered assistant. I'm designed to help answer questions based on HRCare's internal documentation using Retrieval-Augmented Generation (RAG) technology. Feel free to ask me anything about HRCare features, account management, SSO, billing, hiring, onboarding, and more!\n\nYou can also browse our full documentation: <a href=\"/docs\">View Documentation</a>"

  const ErrorPrefix: string := "Sorry, I encountered an error: "
  const ErrorSuffix: string := ". Please try again."

  /** `INITIAL_MESSAGE`, stamped when the module was loaded. */
  function InitialMessage(loadedAt: int): Message {
    Message(GreetingId, Greeting, Bot, loadedAt, Missing)
  }

  /**
   * `contextData: msg.contextData || null`: a response is kept, anything else
   * is `null`; the other fields, and so the buttons the message shows, stay.
   */
  function Normalise(m: Message): (n: Message)
    ensures n.id == m.id && n.text == m.text && n.sender == m.sender && n.timestamp == m.timestamp
    ensures m.contextData.Attached? ==> n.contextData == m.contextData
    ensures !m.contextData.Attached? ==> n.contextData == Null
    ensures ActionsOf(n) == ActionsOf(m)
  {
    m.(contextData := if m.contextData.Attached? then m.contextData else Null)
  }

  /**
   * `loadMessages`: the stored list with its `contextData` normalised, or the
   * greeting alone when there is nothing usable. A stored empty list gives an
   * empty log.
   */
  function Restore(saved: Store, loadedAt: int): (log: seq<Message>)
    ensures !saved.Stored? ==> log == [InitialMessage(loadedAt)]
    ensures saved.Stored? ==> |log| == |saved.log|
    ensures saved.Stored? ==> forall i :: 0 <= i < |log| ==>
      log[i].id == saved.log[i].id && log[i].text == saved.log[i].text &&
      log[i].sender == saved.log[i].sender && log[i].timestamp == saved.log[i].timestamp &&
      (log[i].contextData.Attached? <==> saved.log[i].contextData.Attached?) &&
      (saved.log[i].contextData.Attached? ==> log[i].contextData == saved.log[i].contextData) &&
      log[i].contextData != Missing
  {
    match saved
    case Stored(stored) => seq(|stored|, i requires 0 <= i < |stored| => Normalise(stored[i]))
    case _ => [InitialMessage(loadedAt)]
  }

  /**
   * Writing the restored log back and restoring it on a reload gives the same
   * messages, up to a greeting's absent `contextData` turning into `null`,
   * which shows the same buttons. A log that came from storage comes back
   * exactly.
   */
  lemma RestoreIsStable(saved: Store, loadedAt: int, reloadedAt: int)
    ensures var log := Restore(saved, loadedAt);
      var again := Restore(Stored(log), reloadedAt);
      |again| == |log| &&
      (forall i :: 0 <= i < |log| ==> again[i] == Normalise(log[i]) && ActionsOf(again[i]) == ActionsOf(log[i])) &&
      (saved.Stored? ==> again == log)
  {
    var log := Restore(saved, loadedAt);
    var again := Restore(Stored(log), reloadedAt);
    forall i | 0 <= i < |log| ensures again[i] == Normalise(log[i]) {
    }
    if saved.Stored? {
      forall i | 0 <= i < |log| ensures again[i] == log[i] {
        assert again[i] == Normalise(log[i]);
      }
    }
  }

  /** A log whose every `contextData` is set restores to itself. */
  lemma RestoreKeepsNormalLog(log: seq<Message>, loadedAt: int)
    requires forall i :: 0 <= i < |log| ==> log[i].contextData != Missing
    ensures Restore(Stored(log), loadedAt) == log
  {
    var again := Restore(Stored(log), loadedAt);
    assert forall i :: 0 <= i < |log| ==> again[i] == log[i];
  }

  /**
   * Restoring a copy that was written before later messages were appended
   * gives the beginning of the restored current log (not of the log itself:
   * restoring turns a missing `contextData` into `null`), so a reload loses
   * only the messages whose writes failed.
   */
  lemma RestorePrefix(written: seq<Message>, log: seq<Message>, loadedAt: int)
    requires written <= log
    ensures Restore(Stored(written), loadedAt) == Restore(Stored(log), loadedAt)[..|written|]
  {
    var a := Restore(Stored(written), loadedAt);
    var b := Restore(Stored(log), loadedAt);
    forall i | 0 <= i < |written| ensures a[i] == b[i] {
      assert a[i] == Normalise(written[i]) && b[i] == Normalise(log[i]);
    }
  }

  /**
   * The filters sent with a question: a key only for a non-empty selection,
   * and no filters at all when neither is selected.
   */
  function BuildFilters(productArea: string, section: string): (filters: Option<QueryFilters>)
    ensures filters.None? <==> productArea == "" && section == ""
    ensures filters.Some? ==>
      (filters.value.productArea.Some? <==> productArea != "") &&
      (filters.value.section.Some? <==> section != "") &&
      (filters.value.productArea.Some? ==> filters.value.productArea.value == productArea) &&
      (filters.value.section.Some? ==> filters.value.section.value == section)
  {
    var area := if productArea != "" then Some(productArea) else None;
    var sec := if section != "" then Some(section) else None;
    if area.None? && sec.None? then None else Some(QueryFilters(area, sec))
  }

  /** The text of the reply to a failed question; the error message can be read back out of it. */
  function ErrorText(message: string): (text: string)
    ensures StartsWith(text, ErrorPrefix)
    ensures |text| == |ErrorPrefix| + |message| + |ErrorSuffix|
    ensures text[|ErrorPrefix|..|text| - |ErrorSuffix|] == message
    ensures text[|text| - |ErrorSuffix|..] == ErrorSuffix
  {
    var text := ErrorPrefix + message + ErrorSuffix;
    assert text[..|ErrorPrefix|] == ErrorPrefix;
    assert text[|ErrorPrefix|..|text| - |ErrorSuffix|] == message;
    text
  }

  /**
   * The user's message for a send at clock reading `now` (`Date.now()`) and
   * time `at` (`new Date()`): the input as typed, untrimmed, under an id whose
   * digits read back as `now`; it shows no action buttons.
   */
  function UserMessage(input: string, now: nat, at: int): (m: Message)
    ensures m.sender == User && m.text == input && m.timestamp == at
    ensures m.id != [] && forall k :: 0 <= k < |m.id| ==> IsDigit(m.id[k])
    ensures DigitsValue(m.id) == now
    ensures m.contextData == Missing && ActionsOf(m) == Actions(false, false)
  {
    DecimalStringRoundTrip(now);
    Message(DecimalString(now), input, User, at, Missing)
  }

  /** The bot's message for a settled question (`onSuccess` / `onError`). */
  function Reply(outcome: DispatchOutcome, now: nat, at: int): (m: Message)
    ensures m.sender == Bot && m.id == DecimalString(now) && m.timestamp == at
    ensures outcome.Ok? ==> m.text == outcome.response.answer && m.contextData == Attached(outcome.response)
    ensures outcome.Err? ==> m.text == ErrorText(outcome.message) && m.contextData == Missing
  {
    match outcome
    case Ok(response) => Message(DecimalString(now), response.answer, Bot, at, Attached(response))
    case Err(message) => Message(DecimalString(now), ErrorText(message), Bot, at, Missing)
  }

  /** Which action buttons a message shows. */
  datatype Actions = Actions(viewContext: bool, evaluate: bool)

  /**
   * "View Context" only on a bot message that carries a response; "Evaluate"
   * only when, in addition, that response has a non-empty query id.
   */
  function ActionsOf(m: Message): (a: Actions)
    ensures a.viewContext <==> m.sender == Bot && m.contextData.Attached?
    ensures a.evaluate <==> a.viewContext && m.contextData.response.queryId != ""
  {
    var view := m.sender == Bot && m.contextData.Attached?;
    Actions(view, view && m.contextData.response.queryId != "")
  }

  const LineBreakTag: string := "<br />"

  /** `text.replace(/\n/g, '<br />')`: every line feed becomes a break tag. */
  function BreakLines(s: string): (r: string)
    ensures '\n' !in r
    ensures '\n' !in s ==> r == s
    ensures |r| == |s| + (|LineBreakTag| - 1) * Count('\n', s)
  {
    if s == [] then []
    else if s[0] == '\n' then LineBreakTag + BreakLines(s[1..])
    else [s[0]] + BreakLines(s[1..])
  }

  function CountFrom(sender: Sender, log: seq<Message>): nat {
    if log == [] then 0 else (if log[0].sender == sender then 1 else 0) + CountFrom(sender, log[1..])
  }

  /**
   * The shape of the log since it was restored: question, answer, question,
   * answer, ..., ending with an unanswered question exactly when one is pending.
   */
  predicate Exchanges(tail: seq<Message>, pending: bool) {
    |tail| % 2 == (if pending then 1 else 0) &&
    forall i :: 0 <= i < |tail| ==> tail[i].sender == (if i % 2 == 0 then User else Bot)
  }

  /** Every question has had its one answer, except the pending one. */
  lemma {:induction false} ExchangesBalance(tail: seq<Message>, pending: bool)
    requires Exchanges(tail, pending)
    ensures CountFrom(User, tail) == CountFrom(Bot, tail) + (if pending then 1 else 0)
    decreases |tail|
  {
    if |tail| >= 2 {
      var rest := tail[2..];
      assert forall i :: 0 <= i < |rest| ==> rest[i] == tail[i + 2];
      ExchangesBalance(rest, pending);
      assert tail[1..][1..] == rest;
    } else if |tail| == 1 {
      assert tail[1..] == [];
    }
  }

  class ChatSession {
    var messages: seq<Message>
    var inputValue: string
    var productArea: string
    var section: string
    var showFilters: bool
    var selectedContext: Option<QueryResponse>
    var isContextModalOpen: bool
    var selectedQueryId: Option<string>
    var isEvaluationModalOpen: bool
    /** `mutation.isPending`: a question has been dispatched and has not settled. */
    var isPending: bool
    /** The session entry `chatMessages`. */
    var storage: Store
    /** The log as restored at mount, and the entry it was restored from. */
    ghost var restoredLog: seq<Message>
    ghost var initialStorage: Store

    ghost predicate Valid()
      reads this
    {
      restoredLog <= messages &&
      Exchanges(messages[|restoredLog|..], isPending) &&
      (storage == initialStorage || (storage.Stored? && storage.log <= messages)) &&
      (isContextModalOpen <==> selectedContext.Some?) &&
      (isEvaluationModalOpen <==> selectedQueryId.Some?) &&
      (selectedQueryId.Some? ==> selectedQueryId.value != "")
    }

    /** The pop-up selections are as they were. */
    twostate predicate SameSelection()
      reads this
    {
      selectedContext == old(selectedContext) && isContextModalOpen == old(isContextModalOpen) &&
      selectedQueryId == old(selectedQueryId) && isEvaluationModalOpen == old(isEvaluationModalOpen)
    }

    /** The restored log and the entry it came from are as they were at mount. */
    twostate predicate SameRestore()
      reads this
    {
      restoredLog == old(restoredLog) && initialStorage == old(initialStorage)
    }

    /** The log, its stored copy and the question in flight are as they were. */
    twostate predicate SameLog()
      reads this
    {
      messages == old(messages) && storage == old(storage) && isPending == old(isPending)
    }

    /**
     * Mounting: the log restored from `saved`, then the first run of the
     * persisting effect, whose failure is ignored.
     */
    constructor(saved: Store, loadedAt: int, writeOk: bool)
      ensures Valid()
      ensures messages == Restore(saved, loadedAt)
      ensures storage == if writeOk then Stored(messages) else saved
      ensures inputValue == "" && productArea == "" && section == "" && !showFilters
      ensures selectedContext == None && !isContextModalOpen
      ensures selectedQueryId == None && !isEvaluationModalOpen && !isPending
      ensures restoredLog == messages && initialStorage == saved
    {
      messages := Restore(saved, loadedAt);
      inputValue := "";
      productArea := "";
      section := "";
      showFilters := false;
      selectedContext := None;
      isContextModalOpen := false;
      selectedQueryId := None;
      isEvaluationModalOpen := false;
      isPending := false;
      storage := if writeOk then Stored(Restore(saved, loadedAt)) else saved;
      restoredLog := Restore(saved, loadedAt);
      initialStorage := saved;
    }

    /**
     * The send button is enabled: `inputValue.trim()` is not empty (by the
     * contract of `Trim`, the input is not all white space) and nothing is pending.
     */
    predicate SendEnabled()
      reads this
    {
      !Blank(inputValue) && !isPending
    }

    /**
     * `handleSend`. Refused, changing nothing, for a blank input or while a
     * question is pending. Otherwise it appends the user's message with the
     * input as typed, clears the input, and dispatches the returned request.
     */
    method HandleSend(now: nat, at: int, writeOk: bool) returns (request: Option<QueryRequest>)
      modifies this
      requires Valid()
      ensures Valid()
      ensures SameRestore()
      ensures request.Some? <==> old(SendEnabled())
      ensures request.None? ==> SameLog() && inputValue == old(inputValue)
      ensures request.Some? ==>
        request.value == QueryRequest(old(inputValue), BuildFilters(productArea, section)) &&
        messages == old(messages) + [UserMessage(old(inputValue), now, at)] &&
        inputValue == "" && isPending &&
        storage == (if writeOk then Stored(messages) else old(storage))
      ensures productArea == old(productArea) && section == old(section) && showFilters == old(showFilters)
      ensures SameSelection()
    {
      if Blank(inputValue) || isPending {
        return None;
      }
      var question := inputValue;
      var before := messages;
      messages := messages + [UserMessage(question, now, at)];
      assert messages[|restoredLog|..] == before[|restoredLog|..] + [UserMessage(question, now, at)];
      if writeOk {
        storage := Stored(messages);
      }
      inputValue := "";
      isPending := true;
      request := Some(QueryRequest(question, BuildFilters(productArea, section)));
    }

    /** `handleKeyPress`: Enter without Shift sends; any other key does nothing. */
    method HandleKeyPress(key: string, shiftKey: bool, now: nat, at: int, writeOk: bool)
      returns (request: Option<QueryRequest>)
      modifies this
      requires Valid()
      ensures Valid()
      ensures SameRestore()
      ensures request.Some? <==> key == "Enter" && !shiftKey && old(SendEnabled())
      ensures request.None? ==> SameLog() && inputValue == old(inputValue)
      ensures request.Some? ==>
        request.value == QueryRequest(old(inputValue), BuildFilters(productArea, section)) &&
        messages == old(messages) + [UserMessage(old(inputValue), now, at)] &&
        inputValue == "" && isPending &&
        storage == (if writeOk then Stored(messages) else old(storage))
      ensures productArea == old(productArea) && section == old(section) && showFilters == old(showFilters)
      ensures SameSelection()
    {
      request := None;
      if key == "Enter" && !shiftKey {
        request := HandleSend(now, at, writeOk);
      }
    }

    /**
     * The dispatched question settles (`onSuccess` or `onError`): exactly one
     * bot message is appended and the question is no longer pending.
     */
    method Settle(outcome: DispatchOutcome, now: nat, at: int, writeOk: bool)
      modifies this
      requires Valid() && isPending
      ensures Valid()
      ensures SameRestore()
      ensures messages == old(messages) + [Reply(outcome, now, at)] && !isPending
      ensures storage == if writeOk then Stored(messages) else old(storage)
      ensures inputValue == old(inputValue) && productArea == old(productArea) && section == old(section)
      ensures showFilters == old(showFilters)
      ensures SameSelection()
    {
      var before := messages;
      messages := messages + [Reply(outcome, now, at)];
      assert messages[|restoredLog|..] == before[|restoredLog|..] + [Reply(outcome, now, at)];
      if writeOk {
        storage := Stored(messages);
      }
      isPending := false;
    }

    /** The input's `onChange`: the input becomes `value`. */
    method SetInput(value: string)
      modifies this
      requires Valid()
      ensures Valid()
      ensures SameRestore()
      ensures inputValue == value && SameLog() && SameSelection()
      ensures productArea == old(productArea) && section == old(section) && showFilters == old(showFilters)
    {
      inputValue := value;
    }

    /** `handleSuggestedQuestion`: the question is put in the input line, not sent. */
    method HandleSuggestedQuestion(question: string)
      modifies this
      requires Valid()
      ensures Valid()
      ensures SameRestore()
      ensures inputValue == question && SameLog() && SameSelection()
      ensures productArea == old(productArea) && section == old(section) && showFilters == old(showFilters)
    {
      SetInput(question);
    }

    /** The product-area select's `onChange` (`""` is "All"). */
    method SetProductArea(value: string)
      modifies this
      requires Valid()
      ensures Valid()
      ensures SameRestore()
      ensures productArea == value && section == old(section) && showFilters == old(showFilters)
      ensures inputValue == old(inputValue) && SameLog() && SameSelection()
    {
      productArea := value;
    }

    /** The section select's `onChange` (`""` is "All"). */
    method SetSection(value: string)
      modifies this
      requires Valid()
      ensures Valid()
      ensures SameRestore()
      ensures section == value && productArea == old(productArea) && showFilters == old(showFilters)
      ensures inputValue == old(inputValue) && SameLog() && SameSelection()
    {
      section := value;
    }

    /** `clearFilters`: both filters back to "All", so the next question is sent without filters. */
    method ClearFilters()
      modifies this
      requires Valid()
      ensures Valid()
      ensures SameRestore()
      ensures productArea == "" && section == "" && BuildFilters(productArea, section) == None
      ensures showFilters == old(showFilters) && inputValue == old(inputValue) && SameLog() && SameSelection()
    {
      productArea := "";
      section := "";
    }

    /** The filter button flips the filter panel; "Hide Filters" closes it. */
    method ToggleFilters()
      modifies this
      requires Valid()
      ensures Valid()
      ensures SameRestore()
      ensures showFilters == !old(showFilters)
      ensures productArea == old(productArea) && section == old(section)
      ensures inputValue == old(inputValue) && SameLog() && SameSelection()
    {
      showFilters := !showFilters;
    }

    method HideFilters()
      modifies this
      requires Valid()
      ensures Valid()
      ensures SameRestore()
      ensures !showFilters
      ensures productArea == old(productArea) && section == old(section)
      ensures inputValue == old(inputValue) && SameLog() && SameSelection()
    {
      showFilters := false;
    }

    /** "View Context" on message `i`, which shows that button: open the context pop-up on its response. */
    method HandleContextClick(i: nat)
      modifies this
      requires Valid() && i < |messages| && ActionsOf(messages[i]).viewContext
      ensures Valid()
      ensures SameRestore()
      ensures inputValue == old(inputValue) && SameLog()
      ensures selectedContext == Some(messages[i].contextData.response) && isContextModalOpen
      ensures ContextModalShown()
      ensures selectedQueryId == old(selectedQueryId) && isEvaluationModalOpen == old(isEvaluationModalOpen)
      ensures productArea == old(productArea) && section == old(section) && showFilters == old(showFilters)
    {
      selectedContext := Some(messages[i].contextData.response);
      isContextModalOpen := true;
    }

    /** The context pop-up's close: both its flag and its selection are cleared. */
    method CloseContextModal()
      modifies this
      requires Valid()
      ensures Valid()
      ensures SameRestore()
      ensures selectedContext == None && !isContextModalOpen && !ContextModalShown()
      ensures selectedQueryId == old(selectedQueryId) && isEvaluationModalOpen == old(isEvaluationModalOpen)
      ensures inputValue == old(inputValue) && SameLog()
      ensures productArea == old(productArea) && section == old(section) && showFilters == old(showFilters)
    {
      isContextModalOpen := false;
      selectedContext := None;
    }

    /** "Evaluate" on message `i`, which shows that button: select its query and start the lookup. */
    method HandleEvaluateClick(i: nat)
      modifies this
      requires Valid() && i < |messages| && ActionsOf(messages[i]).evaluate
      ensures Valid()
      ensures SameRestore()
      ensures inputValue == old(inputValue) && SameLog()
      ensures selectedQueryId == Some(messages[i].contextData.response.queryId) && isEvaluationModalOpen
      ensures EvaluationFetchEnabled()
      ensures selectedContext == old(selectedContext) && isContextModalOpen == old(isContextModalOpen)
      ensures productArea == old(productArea) && section == old(section) && showFilters == old(showFilters)
    {
      selectedQueryId := Some(messages[i].contextData.response.queryId);
      isEvaluationModalOpen := true;
    }

    /** The evaluation pop-up's close: both its flag and its selection are cleared; no lookup runs. */
    method CloseEvaluationModal()
      modifies this
      requires Valid()
      ensures Valid()
      ensures SameRestore()
      ensures selectedQueryId == None && !isEvaluationModalOpen && !EvaluationFetchEnabled()
      ensures selectedContext == old(selectedContext) && isContextModalOpen == old(isContextModalOpen)
      ensures inputValue == old(inputValue) && SameLog()
      ensures productArea == old(productArea) && section == old(section) && showFilters == old(showFilters)
    {
      isEvaluationModalOpen := false;
      selectedQueryId := None;
    }

    /** The evaluation lookup is enabled: a non-empty query id is selected and its pop-up is open. */
    predicate EvaluationFetchEnabled()
      reads this
    {
      selectedQueryId.Some? && selectedQueryId.value != "" && isEvaluationModalOpen
    }

    /** The context pop-up is rendered open: a response is selected and its flag is set. */
    predicate ContextModalShown()
      reads this
    {
      selectedContext.Some? && isContextModalOpen
    }

    /**
     * What the evaluation pop-up shows, given the lookup's loading flag and its
     * data. With the session's invariant, the pop-up is open exactly when the
     * lookup is enabled.
     */
    function EvaluationPanel(isLoading: bool, data: Option<EvaluationResponse>): (v: EvaluationModal.EvaluationView)
      reads this
      requires Valid()
      ensures v == EvaluationModal.Hidden <==> !EvaluationFetchEnabled()
    {
      EvaluationModal.SelectView(isEvaluationModalOpen, isLoading, data)
    }
  }
}
