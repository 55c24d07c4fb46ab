/** The message log both chat pages keep: messages whose ids follow the log's length, the
    send guard on the input box, and the four study modes of the mode menu. */
module ChatLog {
  import opened Base
  import JsText

  /** A source link shown under a reply: `src.name` and `src.url`. */
  datatype Source = Source(name: string, url: string)

  /** One entry of `messages`; the display timestamp is not modelled. `sources` is absent
      on messages that carry no `sources` property. */
  datatype Message = Message(id: nat, text: string, isUser: bool, isSystem: bool, sources: Option<seq<Source>>)

  /** The entries of the mode menu; each one's id and label are the same word. */
  datatype Mode = Lectures | Exam | Difficulty | Assignment

  function Label(m: Mode): (s: string)
    ensures s != []
  {
    match m
    case Lectures => "Lectures"
    case Exam => "Exam"
    case Difficulty => "Difficulty"
    case Assignment => "Assignment"
  }

  /** Message `i` (from 0) has id `i + 1`: what ids taken from the log's length give when
      nothing interleaves. */
  predicate Numbered(ms: seq<Message>) {
    forall i :: 0 <= i < |ms| ==> ms[i].id == i + 1
  }

  /** Appending a message whose id is the new length keeps the log numbered. */
  lemma NumberedAppend(ms: seq<Message>, m: Message)
    requires Numbered(ms) && m.id == |ms| + 1
    ensures Numbered(ms + [m])
  {
    assert forall i :: 0 <= i < |ms| ==> (ms + [m])[i] == ms[i];
  }

  /** In a numbered log the ids are pairwise distinct. */
  lemma NumberedDistinct(ms: seq<Message>)
    requires Numbered(ms)
    ensures forall i, j :: 0 <= i < j < |ms| ==> ms[i].id != ms[j].id
  {
  }

  /** `!inputValue.trim() && !uploadedFile`: the guard under which a send does nothing. */
  predicate Blank(input: string, file: Option<string>) {
    JsText.Trim(input) == [] && file.None?
  }

  /** A send is ignored exactly when no file is staged and the input is whitespace only. */
  lemma BlankIff(input: string, file: Option<string>)
    ensures Blank(input, file) <==> JsText.AllSpace(input) && file.None?
  {
    JsText.TrimEmptyIff(input);
  }
}
