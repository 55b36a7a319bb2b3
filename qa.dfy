/**
 * The question-and-answer session of `QAInterface`: an append-only message
 * log, a loading flag, the deferred canned answer with its two citations, the
 * per-message citation toggles and the selected document.
 *
 * `crypto.randomUUID()` and `new Date()` become parameters of the methods
 * (a fresh id and a timestamp); the 1500 ms `setTimeout` becomes the method
 * `Complete`, which the caller runs once per scheduled answer.
 */
module QA {
  import opened Wrappers
  import opened Text

  datatype MessageKind = Question | Answer

  datatype Citation = Citation(id: string, text: string, page: nat, document: string)

  datatype Message = Message(id: string, kind: MessageKind, content: string, timestamp: int, citations: Option<seq<Citation>>)

  datatype DocumentKind = Pdf | Docx | Zip

  datatype Document = Document(id: string, name: string, kind: DocumentKind)

  /** The project's (mock) documents. */
  const Documents: seq<Document> := [
    Document("doc1", "Annual Report 2022.pdf", Pdf),
    Document("doc2", "Financial Statement.docx", Docx),
    Document("doc3", "Market Analysis.pdf", Pdf)
  ]

  /** The citations every simulated answer carries. */
  const AnswerCitations: seq<Citation> := [
    Citation("cit1", "According to the annual report, revenue increased by 15% year-over-year.", 24, "doc1"),
    Citation("cit2", "The financial statement shows a positive cash flow of $2.3M in Q4.", 3, "doc2")
  ]

  const AnswerPrefix: string := "This is a simulated answer to your question about \""
  const AnswerSuffix: string := "\". In a real implementation, this would be the response from the AI model analyzing the uploaded documents."

  // ---------------------------------------------------------------------------
  // The blank-question check
  // ---------------------------------------------------------------------------

  /** The characters `String.prototype.trim` removes: ECMAScript WhiteSpace and LineTerminator. */
  predicate IsWhitespace(c: char)
  {
    || c == '\t' || c == '\n' || c == '\U{000B}' || c == '\U{000C}' || c == '\r' || c == ' '
    || c == '\U{00A0}' || c == '\U{1680}' || ('\U{2000}' <= c <= '\U{200A}')
    || c == '\U{2028}' || c == '\U{2029}' || c == '\U{202F}' || c == '\U{205F}'
    || c == '\U{3000}' || c == '\U{FEFF}'
  }

  /** `trimStart`: drops the leading whitespace. */
  function TrimStart(s: string): (r: string)
    ensures |r| <= |s| && r == s[|s| - |r|..]
    ensures forall i :: 0 <= i < |s| - |r| ==> IsWhitespace(s[i])
    ensures r == [] || !IsWhitespace(r[0])
  {
    if s != [] && IsWhitespace(s[0]) then
      var r := TrimStart(s[1..]);
      assert forall i :: 1 <= i < |s| - |r| ==> s[i] == s[1..][i - 1];
      r
    else s
  }

  /** `trimEnd`: drops the trailing whitespace. */
  function TrimEnd(s: string): (r: string)
    ensures |r| <= |s| && r == s[..|r|]
    ensures forall i :: |r| <= i < |s| ==> IsWhitespace(s[i])
    ensures r == [] || !IsWhitespace(r[|r| - 1])
  {
    if s != [] && IsWhitespace(s[|s| - 1]) then
      var r := TrimEnd(s[..|s| - 1]);
      assert forall i :: |r| <= i < |s| - 1 ==> s[i] == s[..|s| - 1][i];
      r
    else s
  }

  function Trim(s: string): string
  {
    TrimEnd(TrimStart(s))
  }

  /** `!question.trim()`: the question trims to the empty string. */
  predicate IsBlank(s: string)
  {
    Trim(s) == []
  }

  /** A question is blank iff every one of its characters is whitespace. */
  lemma BlankIffAllWhitespace(s: string)
    ensures IsBlank(s) <==> forall i :: 0 <= i < |s| ==> IsWhitespace(s[i])
  {
    var t := TrimStart(s);
    if !IsBlank(s) {
      var r := Trim(s);
      if |t| > 0 {
        assert t[0] == s[|s| - |t|];
      }
      assert r[0] == t[0];
    }
  }

  /** A question whose first character is not whitespace is not blank. */
  lemma StartsWithText(s: string)
    requires |s| > 0 && !IsWhitespace(s[0])
    ensures !IsBlank(s)
  {
    BlankIffAllWhitespace(s);
  }

  /** The send button is disabled while loading or while the question is blank. */
  function SubmitDisabled(question: string, isLoading: bool): (disabled: bool)
    ensures disabled <==> isLoading || forall i :: 0 <= i < |question| ==> IsWhitespace(question[i])
  {
    BlankIffAllWhitespace(question);
    isLoading || IsBlank(question)
  }

  // ---------------------------------------------------------------------------
  // The simulated answer
  // ---------------------------------------------------------------------------

  /** The canned answer text, which quotes the question. */
  function AnswerContent(question: string): (content: string)
    ensures |content| == |AnswerPrefix| + |question| + |AnswerSuffix|
    ensures content[|AnswerPrefix|..|AnswerPrefix| + |question|] == question
    ensures Contains(content, question)
  {
    var content := AnswerPrefix + question + AnswerSuffix;
    assert question <= content[|AnswerPrefix|..];
    ContainsIff(content, question);
    content
  }

  /** Different questions get different answers. */
  lemma AnswerContentInjective(q1: string, q2: string)
    requires AnswerContent(q1) == AnswerContent(q2)
    ensures q1 == q2
  {
    var c := AnswerContent(q1);
    assert q1 == c[|AnswerPrefix|..|AnswerPrefix| + |q1|];
  }

  function AnswerMessage(id: string, question: string, now: int): Message
  {
    Message(id, Answer, AnswerContent(question), now, Some(AnswerCitations))
  }

  // ---------------------------------------------------------------------------
  // Document lookup
  // ---------------------------------------------------------------------------

  /** `docs.find(d => d.id === id)`: the first document with the id. */
  function FindDocument(docs: seq<Document>, id: string): (r: Option<Document>)
    ensures r.Some? ==> r.value in docs && r.value.id == id
    ensures r.Some? ==> exists k :: 0 <= k < |docs| && docs[k] == r.value && forall j :: 0 <= j < k ==> docs[j].id != id
    ensures r.None? <==> forall i :: 0 <= i < |docs| ==> docs[i].id != id
  {
    if docs == [] then None
    else if docs[0].id == id then Some(docs[0])
    else
      var r := FindDocument(docs[1..], id);
      assert forall i :: 1 <= i < |docs| ==> docs[i] == docs[1..][i - 1];
      assert r.Some? ==> exists k :: 0 <= k < |docs| && docs[k] == r.value && forall j :: 0 <= j < k ==> docs[j].id != id by {
        if r.Some? {
          var k :| 0 <= k < |docs[1..]| && docs[1..][k] == r.value && forall j :: 0 <= j < k ==> docs[1..][j].id != id;
          assert docs[k + 1] == r.value;
          assert forall j :: 1 <= j < k + 1 ==> docs[j].id != id;
        }
      }
      r
  }

  /** The name shown for a citation's document, `undefined` when no document has that id. */
  function DocumentName(docId: string): (name: Option<string>)
    ensures name.Some? <==> exists i :: 0 <= i < |Documents| && Documents[i].id == docId
    ensures name.Some? ==> exists i :: 0 <= i < |Documents| && Documents[i].id == docId && Documents[i].name == name.value
  {
    match FindDocument(Documents, docId)
    case None => None
    case Some(d) => Some(d.name)
  }

  /** Both citations of the canned answer resolve: doc1 and doc2, pages 24 and 3. */
  lemma AnswerCitationsResolve()
    ensures |AnswerCitations| == 2
    ensures DocumentName(AnswerCitations[0].document) == Some("Annual Report 2022.pdf") && AnswerCitations[0].page == 24
    ensures DocumentName(AnswerCitations[1].document) == Some("Financial Statement.docx") && AnswerCitations[1].page == 3
  {
  }

  // ---------------------------------------------------------------------------
  // The two toggles
  // ---------------------------------------------------------------------------

  /** `showCitations[id]`, an absent key reading as hidden. */
  predicate IsShown(visibility: map<string, bool>, id: string)
  {
    id in visibility && visibility[id]
  }

  /** The updater of `toggleCitations(id)`. */
  function ToggleVisibility(visibility: map<string, bool>, id: string): (r: map<string, bool>)
    ensures IsShown(r, id) == !IsShown(visibility, id)
    ensures r.Keys == visibility.Keys + {id}
    ensures forall k :: k in visibility && k != id ==> r[k] == visibility[k]
  {
    visibility[id := !IsShown(visibility, id)]
  }

  /** Toggling the same message twice restores every message's visibility. */
  lemma ToggleVisibilityTwice(visibility: map<string, bool>, id: string)
    ensures var twice := ToggleVisibility(ToggleVisibility(visibility, id), id);
      forall k :: IsShown(twice, k) == IsShown(visibility, k)
  {
  }

  /** The updater of `toggleDocument(id)`. */
  function ToggleDocument(active: Option<string>, id: string): (r: Option<string>)
    ensures r.Some? <==> active != Some(id)
    ensures r.Some? ==> r.value == id
  {
    if active == Some(id) then None else Some(id)
  }

  /**
   * Toggling the same document twice returns to the prior selection when that
   * was nothing or that document, and clears a different selection.
   */
  lemma ToggleDocumentTwice(active: Option<string>, id: string)
    ensures active == None || active == Some(id) ==> ToggleDocument(ToggleDocument(active, id), id) == active
    ensures active.Some? && active != Some(id) ==> ToggleDocument(ToggleDocument(active, id), id) == None
  {
  }

  // ---------------------------------------------------------------------------
  // The session
  // ---------------------------------------------------------------------------

  function CountKind(messages: seq<Message>, kind: MessageKind): nat
  {
    if messages == [] then 0
    else (if messages[0].kind == kind then 1 else 0) + CountKind(messages[1..], kind)
  }

  lemma {:induction false} CountKindAppend(messages: seq<Message>, m: Message, kind: MessageKind)
    ensures CountKind(messages + [m], kind) == CountKind(messages, kind) + (if m.kind == kind then 1 else 0)
  {
    if messages != [] {
      assert (messages + [m])[1..] == messages[1..] + [m];
      CountKindAppend(messages[1..], m, kind);
    }
  }

  predicate DistinctMessageIds(messages: seq<Message>)
  {
    forall i, j :: 0 <= i < j < |messages| ==> messages[i].id != messages[j].id
  }

  lemma AppendFreshId(messages: seq<Message>, m: Message)
    requires DistinctMessageIds(messages)
    requires forall i :: 0 <= i < |messages| ==> messages[i].id != m.id
    ensures DistinctMessageIds(messages + [m])
  {
    var all := messages + [m];
    forall i, j | 0 <= i < j < |all| ensures all[i].id != all[j].id {
      assert all[i] == messages[i];
      if j < |messages| {
        assert all[j] == messages[j];
      }
    }
  }

  /**
   * Logging a message with a fresh id keeps ids unique, and keeps the questions
   * counting one more than the answers for each answer still scheduled, when the
   * schedule grows by one with a question and shrinks by one with an answer.
   */
  lemma LogMessage(messages: seq<Message>, m: Message, pending: nat, pending': nat)
    requires CountKind(messages, Question) == CountKind(messages, Answer) + pending
    requires DistinctMessageIds(messages)
    requires forall i :: 0 <= i < |messages| ==> messages[i].id != m.id
    requires m.kind == Question ==> pending' == pending + 1
    requires m.kind == Answer ==> pending' + 1 == pending
    ensures CountKind(messages + [m], Question) == CountKind(messages + [m], Answer) + pending'
    ensures DistinctMessageIds(messages + [m])
  {
    CountKindAppend(messages, m, Question);
    CountKindAppend(messages, m, Answer);
    AppendFreshId(messages, m);
  }

  class QASession {
    var question: string
    var isLoading: bool
    var messages: seq<Message>
    /** The questions captured by the answer timeouts still to fire, oldest first. */
    var pending: seq<string>
    var showCitations: map<string, bool>
    var activeDocumentId: Option<string>

    /**
     * Every question is answered or awaiting its answer, an answer is awaited
     * while loading, and message ids are unique.
     */
    ghost predicate Valid()
      reads this
    {
      && CountKind(messages, Question) == CountKind(messages, Answer) + |pending|
      && (isLoading ==> pending != [])
      && DistinctMessageIds(messages)
    }

    constructor ()
      ensures Valid()
      ensures question == "" && !isLoading && messages == [] && pending == []
      ensures showCitations == map[] && activeDocumentId == None
    {
      question := "";
      isLoading := false;
      messages := [];
      pending := [];
      showCitations := map[];
      activeDocumentId := None;
    }

    /** The `onChange` handler of the question field. */
    method SetQuestion(text: string)
      requires Valid()
      modifies this
      ensures Valid()
      ensures question == text
      ensures isLoading == old(isLoading) && messages == old(messages) && pending == old(pending)
      ensures showCitations == old(showCitations) && activeDocumentId == old(activeDocumentId)
    {
      question := text;
    }

    /**
     * The immediate half of `handleSubmit`: a blank question changes nothing;
     * otherwise the question, untrimmed, is appended, loading starts and the
     * answer is scheduled with the question as it is now.
     */
    method Submit(id: string, now: int) returns (submitted: bool)
      requires Valid()
      requires forall i :: 0 <= i < |messages| ==> messages[i].id != id
      modifies this
      ensures Valid()
      ensures submitted <==> !IsBlank(old(question))
      ensures submitted ==> isLoading && SubmitDisabled(question, isLoading)
      ensures !submitted ==> unchanged(this)
      ensures submitted ==>
        && messages == old(messages) + [Message(id, Question, old(question), now, None)]
        && isLoading
        && pending == old(pending) + [old(question)]
        && question == old(question)
        && showCitations == old(showCitations) && activeDocumentId == old(activeDocumentId)
    {
      if IsBlank(question) {
        submitted := false;
      } else {
        Ask(id, now);
        submitted := true;
      }
    }

    /** The part of `handleSubmit` after the blank check: log the question, start loading, schedule the answer. */
    method Ask(id: string, now: int)
      requires Valid()
      requires forall i :: 0 <= i < |messages| ==> messages[i].id != id
      modifies this
      ensures Valid()
      ensures messages == old(messages) + [Message(id, Question, old(question), now, None)]
      ensures isLoading && pending == old(pending) + [old(question)]
      ensures question == old(question)
      ensures showCitations == old(showCitations) && activeDocumentId == old(activeDocumentId)
    {
      var asked := Message(id, Question, question, now, None);
      LogMessage(messages, asked, |pending|, |pending| + 1);
      messages, isLoading, pending := messages + [asked], true, pending + [question];
    }

    /**
     * The deferred half of `handleSubmit`: the oldest scheduled answer is
     * appended with the two fixed citations, the question field is cleared
     * and loading stops.
     */
    method Complete(id: string, now: int)
      requires Valid()
      requires pending != []
      requires forall i :: 0 <= i < |messages| ==> messages[i].id != id
      modifies this
      ensures Valid()
      ensures messages == old(messages) + [AnswerMessage(id, old(pending)[0], now)]
      ensures pending == old(pending)[1..]
      ensures question == "" && !isLoading
      ensures showCitations == old(showCitations) && activeDocumentId == old(activeDocumentId)
    {
      var answer := AnswerMessage(id, pending[0], now);
      LogMessage(messages, answer, |pending|, |pending| - 1);
      messages := messages + [answer];
      pending := pending[1..];
      question := "";
      isLoading := false;
    }

    /** `toggleCitations(id)` */
    method ToggleCitations(messageId: string)
      requires Valid()
      modifies this
      ensures Valid()
      ensures showCitations == ToggleVisibility(old(showCitations), messageId)
      ensures question == old(question) && isLoading == old(isLoading)
      ensures messages == old(messages) && pending == old(pending) && activeDocumentId == old(activeDocumentId)
    {
      showCitations := ToggleVisibility(showCitations, messageId);
    }

    /** `toggleDocument(id)`, a click on a document of the sidebar. */
    method SelectDocument(docId: string)
      requires Valid()
      modifies this
      ensures Valid()
      ensures activeDocumentId == ToggleDocument(old(activeDocumentId), docId)
      ensures question == old(question) && isLoading == old(isLoading)
      ensures messages == old(messages) && pending == old(pending) && showCitations == old(showCitations)
    {
      activeDocumentId := ToggleDocument(activeDocumentId, docId);
    }

    /** The close button of the document preview. */
    method CloseDocument()
      requires Valid()
      modifies this
      ensures Valid()
      ensures activeDocumentId == None
      ensures question == old(question) && isLoading == old(isLoading)
      ensures messages == old(messages) && pending == old(pending) && showCitations == old(showCitations)
    {
      activeDocumentId := None;
    }
  }

  /**
   * A question asked in a fresh session: the log holds the question and then
   * the answer that quotes it and cites the annual report (page 24) and the
   * financial statement (page 3).
   */
  method RevenueQuestion() returns (log: seq<Message>)
    ensures |log| == 2
    ensures log[0].kind == Question && log[0].content == "What is the revenue growth?"
    ensures log[1].kind == Answer && Contains(log[1].content, "What is the revenue growth?")
    ensures log[1].citations.Some? && |log[1].citations.value| == 2
    ensures DocumentName(log[1].citations.value[0].document) == Some("Annual Report 2022.pdf")
    ensures log[1].citations.value[0].page == 24
    ensures DocumentName(log[1].citations.value[1].document) == Some("Financial Statement.docx")
    ensures log[1].citations.value[1].page == 3
  {
    var session := new QASession();
    session.SetQuestion("What is the revenue growth?");
    StartsWithText("What is the revenue growth?");
    var submitted := session.Submit("q1", 0);
    session.Complete("a1", 1500);
    log := session.messages;
    AnswerCitationsResolve();
  }
}
