/** Conversation history and its `.jsonl` file (app.py): one `{type, content}`
    record per line, written whole by `save_chat_history_to_file` and read
    back by `load_chat_history_from_file`. */
module History {
  import opened Wrappers

  /** `HumanMessage(content)` or `AIMessage(content)`. */
  datatype Entry = Human(content: string) | AI(content: string)

  /** One line of a history file: a JSON object, given by its string-valued
      fields, or a line that does not decode to an object at all. */
  datatype Line = Garbled | Object(fields: map<string, string>)

  const TypeKey := "type"
  const ContentKey := "content"
  const HumanTag := "human"
  const AiTag := "ai"

  /** The record `writer.write` emits for one entry. */
  function EncodeEntry(e: Entry): Line {
    match e
    case Human(c) => Object(map[TypeKey := HumanTag, ContentKey := c])
    case AI(c) => Object(map[TypeKey := AiTag, ContentKey := c])
  }

  /** The lines of a saved history, one per entry, in order. */
  function Encode(history: seq<Entry>): seq<Line> {
    if history == [] then []
    else Encode(history[..|history| - 1]) + [EncodeEntry(history[|history| - 1])]
  }

  /** What reading one record does: an entry, nothing (a record whose `type`
      is neither `human` nor `ai`), or an exception (an undecodable line, a
      missing `type`, or a human/ai record without `content`). */
  datatype LineResult = Skipped | Read(entry: Entry) | Failed

  function DecodeLine(line: Line): LineResult {
    match line
    case Garbled => Failed
    case Object(f) =>
      if TypeKey !in f then Failed
      else if f[TypeKey] == HumanTag then (if ContentKey in f then Read(Human(f[ContentKey])) else Failed)
      else if f[TypeKey] == AiTag then (if ContentKey in f then Read(AI(f[ContentKey])) else Failed)
      else Skipped
  }

  /** Reading the lines in order; `None` when some line raises. */
  function Decode(lines: seq<Line>): Option<seq<Entry>> {
    if lines == [] then Some([])
    else
      match Decode(lines[..|lines| - 1])
      case None => None
      case Some(h) =>
        match DecodeLine(lines[|lines| - 1])
        case Failed => None
        case Skipped => Some(h)
        case Read(e) => Some(h + [e])
  }

  /** `load_chat_history_from_file` on a file that is absent (`None`) or holds
      the given lines: any exception while reading yields the empty history. */
  function Load(file: Option<seq<Line>>): seq<Entry> {
    match file
    case None => []
    case Some(lines) => Decode(lines).GetOr([])
  }

  /** Reading back what was written gives the same entries in the same order. */
  lemma {:induction false} DecodeEncode(history: seq<Entry>)
    ensures Decode(Encode(history)) == Some(history)
  {
    if history != [] {
      var init := history[..|history| - 1];
      DecodeEncode(init);
      var lines := Encode(history);
      assert lines[..|lines| - 1] == Encode(init);
      assert init + [history[|history| - 1]] == history;
    }
  }

  /** The save/load round trip. */
  lemma LoadAfterSave(history: seq<Entry>)
    ensures Load(Some(Encode(history))) == history
  {
    DecodeEncode(history);
  }

  /** Reading fails exactly when some line raises. */
  lemma {:induction false} DecodeFailsIff(lines: seq<Line>)
    ensures Decode(lines).None? <==> exists i :: 0 <= i < |lines| && DecodeLine(lines[i]).Failed?
  {
    if lines != [] {
      var init := lines[..|lines| - 1];
      DecodeFailsIff(init);
      if exists i :: 0 <= i < |init| && DecodeLine(init[i]).Failed? {
        var i :| 0 <= i < |init| && DecodeLine(init[i]).Failed?;
        assert lines[i] == init[i];
      }
      if exists i :: 0 <= i < |lines| && DecodeLine(lines[i]).Failed? {
        var i :| 0 <= i < |lines| && DecodeLine(lines[i]).Failed?;
        if i < |init| {
          assert init[i] == lines[i];
        }
      }
    }
  }

  /** A file with one bad line loads as the empty history, whatever the other
      lines hold. */
  lemma LoadFailureIsEmpty(lines: seq<Line>, bad: nat)
    requires bad < |lines| && DecodeLine(lines[bad]).Failed?
    ensures Load(Some(lines)) == []
  {
    DecodeFailsIff(lines);
  }

  /** Once a prefix has failed, reading the whole file fails too. */
  lemma DecodeFailureSticks(lines: seq<Line>, k: nat)
    requires k <= |lines| && Decode(lines[..k]).None?
    ensures Decode(lines).None?
  {
    DecodeFailsIff(lines[..k]);
    var i :| 0 <= i < k && DecodeLine(lines[..k][i]).Failed?;
    DecodeFailsIff(lines);
  }
}
