/** The mock-up chat page `Frontend/src/pages/ChatInterface.jsx`: no back end; two seconds
    after a send a timer appends a canned reply. A send and its timer are two steps:
    `SendMessage` runs the handler, `TimerFires` runs the timer callback. */
module ChatMock {
  import opened Base
  import opened ChatLog

  const Greeting: string := "Happy to help you!"
  const Canned: string :=
    "I understand your question. Let me help you with that. This is a UI mockup, so I can't provide real responses yet, but the interface is ready for integration!"

  /** An entry of the sidebar's chat history. */
  datatype Chat = Chat(id: nat, title: string, preview: string, active: bool)

  const InitialHistory: seq<Chat> := [
    Chat(1, "Getting Started", "Happy to help you!", true),
    Chat(2, "Project Planning", "Can you help me with...", false),
    Chat(3, "Code Review", "I need assistance reviewing...", false)
  ]

  /** `prev.map(chat => ({ ...chat, active: false }))`: every chat kept, in order, with
      only its `active` flag cleared. */
  function Deactivated(hs: seq<Chat>): (r: seq<Chat>)
    ensures |r| == |hs|
    ensures forall i :: 0 <= i < |r| ==> r[i] == hs[i].(active := false)
    ensures forall i :: 0 <= i < |r| ==> !r[i].active
  {
    seq(|hs|, i requires 0 <= i < |hs| => hs[i].(active := false))
  }

  /** The system message a mode switch appends to a log of length `n`. */
  function SwitchNotice(n: nat, mode: Mode): (m: Message)
    ensures m.id == n + 1 && !m.isUser && m.isSystem && m.sources == None
    ensures m.text == "Switched to " + Label(mode) + " mode."
  {
    Message(n + 1, "Switched to " + Label(mode) + " mode.", false, true, None)
  }

  class MockChat {
    var messages: seq<Message>
    var input: string
    var file: Option<string>
    var isTyping: bool
    var history: seq<Chat>
    var selectedMode: Mode
    var dropdownOpen: bool
    /** For each timer still to fire, oldest first, the log length its send saw. */
    var pending: seq<nat>

    ghost predicate Settled()
      reads this
    {
      pending == [] && Numbered(messages)
    }

    ghost predicate Awaiting()
      reads this
    {
      |pending| == 1 && pending[0] + 1 == |messages| && Numbered(messages)
    }

    constructor()
      ensures messages == [Message(1, Greeting, false, false, None)]
      ensures input == [] && file == None && !isTyping && history == InitialHistory
      ensures selectedMode == Lectures && !dropdownOpen && pending == []
      ensures Settled()
    {
      messages := [Message(1, Greeting, false, false, None)];
      input := [];
      file := None;
      isTyping := false;
      history := InitialHistory;
      selectedMode := Lectures;
      dropdownOpen := false;
      pending := [];
    }

    /** The text box's `onChange`. */
    method SetInput(text: string)
      modifies this
      ensures input == text
      ensures messages == old(messages) && file == old(file) && isTyping == old(isTyping) && history == old(history)
      ensures selectedMode == old(selectedMode) && dropdownOpen == old(dropdownOpen) && pending == old(pending)
    {
      input := text;
    }

    /** `handleSendMessage`: ignored when blank; otherwise the user message (id length + 1)
        is appended, the input cleared, the file dropped, typing shown, and a timer started
        that remembers the length seen. */
    method SendMessage()
      modifies this
      ensures Blank(old(input), old(file)) ==>
        messages == old(messages) && input == old(input) && file == old(file)
        && isTyping == old(isTyping) && pending == old(pending)
      ensures !Blank(old(input), old(file)) ==>
        messages == old(messages) + [Message(|old(messages)| + 1, old(input), true, false, None)]
        && input == [] && file == None && isTyping && pending == old(pending) + [|old(messages)|]
      ensures history == old(history) && selectedMode == old(selectedMode) && dropdownOpen == old(dropdownOpen)
      ensures old(Settled()) && !Blank(old(input), old(file)) ==> Awaiting()
    {
      if Blank(input, file) {
        return;
      }
      var newMessage := Message(|messages| + 1, input, true, false, None);
      if Numbered(messages) {
        NumberedAppend(messages, newMessage);
      }
      pending := pending + [|messages|];
      messages := messages + [newMessage];
      input := [];
      file := None;
      isTyping := true;
    }

    /** The timer of the oldest send fires: the canned reply, numbered from the length that
        send saw, is appended and typing is hidden. */
    method TimerFires()
      requires pending != []
      modifies this
      ensures messages == old(messages) + [Message(old(pending[0]) + 2, Canned, false, false, None)]
      ensures pending == old(pending[1..]) && !isTyping
      ensures input == old(input) && file == old(file) && history == old(history)
      ensures selectedMode == old(selectedMode) && dropdownOpen == old(dropdownOpen)
      ensures old(Awaiting()) ==> Settled()
    {
      var bot := Message(pending[0] + 2, Canned, false, false, None);
      if Awaiting() {
        NumberedAppend(messages, bot);
      }
      messages := messages + [bot];
      pending := pending[1..];
      isTyping := false;
    }

    /** `handleNewChat`: the log is the greeting again and no chat of the history is active. */
    method NewChat()
      modifies this
      ensures messages == [Message(1, Greeting, false, false, None)] && Numbered(messages)
      ensures history == Deactivated(old(history))
      ensures input == old(input) && file == old(file) && isTyping == old(isTyping)
      ensures selectedMode == old(selectedMode) && dropdownOpen == old(dropdownOpen) && pending == old(pending)
    {
      messages := [Message(1, Greeting, false, false, None)];
      history := Deactivated(history);
    }

    /** `handleClearChat`. */
    method ClearChat()
      modifies this
      ensures messages == [] && Numbered(messages)
      ensures input == old(input) && file == old(file) && isTyping == old(isTyping) && history == old(history)
      ensures selectedMode == old(selectedMode) && dropdownOpen == old(dropdownOpen) && pending == old(pending)
    {
      messages := [];
    }

    /** The mode button flips whether the menu is open. */
    method ToggleDropdown()
      modifies this
      ensures dropdownOpen == !old(dropdownOpen)
      ensures messages == old(messages) && input == old(input) && file == old(file) && isTyping == old(isTyping)
      ensures history == old(history) && selectedMode == old(selectedMode) && pending == old(pending)
    {
      dropdownOpen := !dropdownOpen;
    }

    /** A mode menu entry: set the mode, close the menu, and append the system notice
        numbered from the current length, which keeps a numbered log numbered. */
    method SelectMode(mode: Mode)
      modifies this
      ensures selectedMode == mode && !dropdownOpen
      ensures messages == old(messages) + [SwitchNotice(|old(messages)|, mode)]
      ensures old(Numbered(messages)) ==> Numbered(messages)
      ensures input == old(input) && file == old(file) && isTyping == old(isTyping)
      ensures history == old(history) && pending == old(pending)
    {
      selectedMode := mode;
      dropdownOpen := false;
      var notice := SwitchNotice(|messages|, mode);
      if Numbered(messages) {
        NumberedAppend(messages, notice);
      }
      messages := messages + [notice];
    }

    /** `handleFileUpload` and `handleDrop`. */
    method PickFile(picked: Option<string>)
      modifies this
      ensures file == (if picked.Some? then picked else old(file))
      ensures messages == old(messages) && input == old(input) && isTyping == old(isTyping) && history == old(history)
      ensures selectedMode == old(selectedMode) && dropdownOpen == old(dropdownOpen) && pending == old(pending)
    {
      if picked.Some? {
        file := picked;
      }
    }

    /** The staged file's remove button, `setUploadedFile(null)`: afterwards a send with
        whitespace-only input is ignored again. */
    method RemoveFile()
      modifies this
      ensures file == None
      ensures messages == old(messages) && input == old(input) && isTyping == old(isTyping) && history == old(history)
      ensures selectedMode == old(selectedMode) && dropdownOpen == old(dropdownOpen) && pending == old(pending)
      ensures forall text :: Blank(text, file) <==> JsText.AllSpace(text)
    {
      file := None;
      forall text {
        BlankIff(text, file);
      }
    }
  }

  /** The reply's id is taken from the length the send saw, the notice's from the length at
      the switch: a mode switch while the reply is pending gives both the same id. */
  method ModeSwitchWhileTyping(question: string) returns (log: seq<Message>)
    requires !JsText.AllSpace(question)
    ensures |log| == 4
    ensures log[2].isSystem && !log[3].isSystem
    ensures log[2].id == log[3].id == 3
    ensures !Numbered(log)
  {
    var page := new MockChat();
    page.SetInput(question);
    BlankIff(question, None);
    page.SendMessage();
    page.SelectMode(Exam);
    page.TimerFires();
    log := page.messages;
  }
}
