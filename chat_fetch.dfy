/** The chat page `Front/Frontend/src/pages/ChatInterface.jsx`, which posts each question
    to the back end's `/chat`. A send and its reply are two steps: `SendMessage` runs the
    handler up to the `fetch`, `Complete` runs the rest once the reply (or the failure)
    is in. */
module ChatFetch {
  import opened Base
  import opened ChatLog

  const Welcome: string := "Hello! I am connected to your lecture notes. What would you like to review?"
  const FreshStart: string := "Fresh start! Ask me anything."

  /** The text of the error bubble: the warning sign as the page's mis-decoded bytes spell
      it, then the question. */
  const Unreachable: string :=
    ['\U{E2}', '\U{161}', '\U{A0}', '\U{EF}', '\U{B8}']
    + " I couldn't reach the brain. Is your Python backend running?"

  /** What a request to `/chat` ends in: an ok response with its JSON body, or any failure
      (a non-ok status, a network error, a body that is not JSON). */
  datatype Reply = Answered(answer: string, sources: seq<Source>) | Failed

  /** The bot message appended for a reply, numbered from the log length `seen` at send time. */
  function BotMessage(seen: nat, reply: Reply): (m: Message)
    ensures m.id == seen + 2 && !m.isUser && !m.isSystem
    ensures reply.Answered? ==> m.text == reply.answer && m.sources == Some(reply.sources)
    ensures reply.Failed? ==> m.text == Unreachable && m.sources == None
  {
    match reply
    case Answered(answer, sources) => Message(seen + 2, answer, false, false, Some(sources))
    case Failed => Message(seen + 2, Unreachable, false, false, None)
  }

  class FetchChat {
    var messages: seq<Message>
    var input: string
    /** The staged file's name; the page never sends it. */
    var file: Option<string>
    var isTyping: bool
    var selectedMode: Mode
    var dropdownOpen: bool
    /** For each send still waiting for its reply, oldest first, the log length it saw. */
    var pending: seq<nat>
    /** The questions posted to `/chat`, in order. */
    var requests: seq<string>

    /** No reply outstanding, and the ids follow the positions. */
    ghost predicate Settled()
      reads this
    {
      pending == [] && Numbered(messages)
    }

    /** One reply outstanding, sent when the log was one message shorter. */
    ghost predicate Awaiting()
      reads this
    {
      |pending| == 1 && pending[0] + 1 == |messages| && Numbered(messages)
    }

    constructor()
      ensures messages == [Message(1, Welcome, false, false, None)]
      ensures input == [] && file == None && !isTyping && selectedMode == Lectures && !dropdownOpen
      ensures pending == [] && requests == []
      ensures Settled()
    {
      messages := [Message(1, Welcome, false, false, None)];
      input := [];
      file := None;
      isTyping := false;
      selectedMode := Lectures;
      dropdownOpen := false;
      pending := [];
      requests := [];
    }

    /** The text box's `onChange`. */
    method SetInput(text: string)
      modifies this
      ensures input == text
      ensures messages == old(messages) && file == old(file) && isTyping == old(isTyping)
      ensures selectedMode == old(selectedMode) && dropdownOpen == old(dropdownOpen)
      ensures pending == old(pending) && requests == old(requests)
    {
      input := text;
    }

    /** `handleSendMessage` up to the `fetch`: ignored when blank; otherwise the user message
        (the typed text, id length + 1) is appended, the input cleared, the staged file
        dropped, typing shown, and the text posted as the question. */
    method SendMessage()
      modifies this
      ensures Blank(old(input), old(file)) ==>
        messages == old(messages) && input == old(input) && file == old(file) && isTyping == old(isTyping)
        && pending == old(pending) && requests == old(requests)
      ensures !Blank(old(input), old(file)) ==>
        messages == old(messages) + [Message(|old(messages)| + 1, old(input), true, false, None)]
        && input == [] && file == None && isTyping
        && pending == old(pending) + [|old(messages)|] && requests == old(requests) + [old(input)]
      ensures selectedMode == old(selectedMode) && dropdownOpen == old(dropdownOpen)
      ensures old(Settled()) && !Blank(old(input), old(file)) ==> Awaiting()
    {
      if Blank(input, file) {
        return;
      }
      var currentText := input;
      var newMessage := Message(|messages| + 1, currentText, true, false, None);
      if Numbered(messages) {
        NumberedAppend(messages, newMessage);
      }
      pending := pending + [|messages|];
      messages := messages + [newMessage];
      input := [];
      file := None;
      isTyping := true;
      requests := requests + [currentText];
    }

    /** The rest of `handleSendMessage` for the oldest outstanding send: exactly one bot
        message, numbered from the length that send saw, carrying the answer and sources or
        the fixed error text; typing is hidden on every path. */
    method Complete(reply: Reply)
      requires pending != []
      modifies this
      ensures messages == old(messages) + [BotMessage(old(pending[0]), reply)]
      ensures pending == old(pending[1..]) && !isTyping
      ensures input == old(input) && file == old(file) && requests == old(requests)
      ensures selectedMode == old(selectedMode) && dropdownOpen == old(dropdownOpen)
      ensures old(Awaiting()) ==> Settled()
    {
      var bot := BotMessage(pending[0], reply);
      if Awaiting() {
        NumberedAppend(messages, bot);
      }
      messages := messages + [bot];
      pending := pending[1..];
      isTyping := false;
    }

    /** `handleNewChat`: the log becomes the one greeting with id 1. */
    method NewChat()
      modifies this
      ensures messages == [Message(1, FreshStart, false, false, None)] && Numbered(messages)
      ensures input == old(input) && file == old(file) && isTyping == old(isTyping)
      ensures selectedMode == old(selectedMode) && dropdownOpen == old(dropdownOpen)
      ensures pending == old(pending) && requests == old(requests)
    {
      messages := [Message(1, FreshStart, false, false, None)];
    }

    /** `handleClearChat`: the log becomes empty. */
    method ClearChat()
      modifies this
      ensures messages == [] && Numbered(messages)
      ensures input == old(input) && file == old(file) && isTyping == old(isTyping)
      ensures selectedMode == old(selectedMode) && dropdownOpen == old(dropdownOpen)
      ensures pending == old(pending) && requests == old(requests)
    {
      messages := [];
    }

    /** The mode button flips whether the menu is open. */
    method ToggleDropdown()
      modifies this
      ensures dropdownOpen == !old(dropdownOpen)
      ensures selectedMode == old(selectedMode)
      ensures messages == old(messages) && input == old(input) && file == old(file) && isTyping == old(isTyping)
      ensures pending == old(pending) && requests == old(requests)
    {
      dropdownOpen := !dropdownOpen;
    }

    /** A mode menu entry: set the mode and close the menu; the log is untouched. */
    method SelectMode(mode: Mode)
      modifies this
      ensures selectedMode == mode && !dropdownOpen
      ensures messages == old(messages) && input == old(input) && file == old(file) && isTyping == old(isTyping)
      ensures pending == old(pending) && requests == old(requests)
    {
      selectedMode := mode;
      dropdownOpen := false;
    }

    /** `handleFileUpload` and `handleDrop`: a picked or dropped file replaces the staged one;
        an empty pick changes nothing. */
    method PickFile(picked: Option<string>)
      modifies this
      ensures file == (if picked.Some? then picked else old(file))
      ensures messages == old(messages) && input == old(input) && isTyping == old(isTyping)
      ensures selectedMode == old(selectedMode) && dropdownOpen == old(dropdownOpen)
      ensures pending == old(pending) && requests == old(requests)
    {
      if picked.Some? {
        file := picked;
      }
    }

    /** The staged file's remove button, `setUploadedFile(null)`: afterwards a send with
        whitespace-only input is ignored again. */
    method RemoveFile()
      modifies this
      ensures file == None
      ensures messages == old(messages) && input == old(input) && isTyping == old(isTyping)
      ensures selectedMode == old(selectedMode) && dropdownOpen == old(dropdownOpen)
      ensures pending == old(pending) && requests == old(requests)
      ensures forall text :: Blank(text, file) <==> JsText.AllSpace(text)
    {
      file := None;
      forall text {
        BlankIff(text, file);
      }
    }
  }

  /** One question and its answer from a settled page: the log grows by the user message
      and the bot message, numbered on, and the page is settled again. */
  method SendAndReply(page: FetchChat, reply: Reply)
    requires page.Settled() && !Blank(page.input, page.file)
    modifies page
    ensures page.Settled() && !page.isTyping
    ensures page.messages == old(page.messages)
              + [Message(|old(page.messages)| + 1, old(page.input), true, false, None),
                 BotMessage(|old(page.messages)|, reply)]
    ensures page.requests == old(page.requests) + [old(page.input)]
  {
    page.SendMessage();
    page.Complete(reply);
  }
}
