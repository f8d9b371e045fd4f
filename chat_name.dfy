/** `is_valid_chat_name` (app.py): the gate that keeps a user-chosen chat name
    from being used as an unsafe file-system path component. The checks run
    in order on the stripped name and the first one that fails decides the
    message. */
module ChatName {
  import opened Text

  /** A value read from a JSON request body, as Python sees it: absent
      (`None`), a string, or some other JSON value together with its Python
      truthiness (`0`, `false`, `[]` and `{}` are falsy). */
  datatype Field = Absent | Str(s: string) | NonString(truthy: bool)

  /** Python's `bool(value)`. */
  predicate Truthy(f: Field) {
    match f
    case Absent => false
    case Str(s) => s != ""
    case NonString(t) => t
  }

  /** The `(is_valid, message)` pair the validator returns. */
  datatype Verdict = Verdict(ok: bool, message: string)

  const EmptyMessage := "Name cannot be empty."
  const PatternMessage :=
    "Name can only contain letters, numbers, spaces, hyphens, and underscores (max 100 characters)."
  const DotEdgeMessage := "Name cannot start or end with a dot."
  const DoubleDotMessage := "Name cannot contain '..'."
  const SeparatorMessage := "Name cannot contain path separators."

  const MaxNameLength := 100

  /** `os.sep` on the POSIX hosts the service runs on. */
  const OsSep := '/'

  /** The character class `[a-zA-Z0-9 _-]`. */
  predicate NameChar(c: char) {
    ('a' <= c <= 'z') || ('A' <= c <= 'Z') || ('0' <= c <= '9') || c == ' ' || c == '_' || c == '-'
  }

  /** `re.fullmatch(r"^[a-zA-Z0-9 _-]{1,100}$", t)` succeeds. */
  predicate MatchesNamePattern(t: string) {
    1 <= |t| <= MaxNameLength && forall i :: 0 <= i < |t| ==> NameChar(t[i])
  }

  predicate HasDotEdge(t: string) {
    |t| > 0 && (t[0] == '.' || t[|t| - 1] == '.')
  }

  predicate HasDoubleDot(t: string) {
    exists i :: 0 <= i < |t| - 1 && t[i] == '.' && t[i + 1] == '.'
  }

  predicate HasSeparator(t: string) {
    OsSep in t || '/' in t || '\\' in t
  }

  /** `is_valid_chat_name(name)`. */
  function IsValidChatName(name: Field): (v: Verdict)
  {
    if !Truthy(name) || !name.Str? then Verdict(false, EmptyMessage)
    else
      var t := Strip(name.s);
      if !MatchesNamePattern(t) then Verdict(false, PatternMessage)
      else if HasDotEdge(t) then Verdict(false, DotEdgeMessage)
      else if HasDoubleDot(t) then Verdict(false, DoubleDotMessage)
      else if HasSeparator(t) then Verdict(false, SeparatorMessage)
      else Verdict(true, "")
  }

  /** A name that fits the character class holds no dot and no path
      separator, so it passes the three path checks. */
  lemma PatternExcludesPathSyntax(t: string)
    requires MatchesNamePattern(t)
    ensures !HasDotEdge(t) && !HasDoubleDot(t) && !HasSeparator(t)
  {
    assert !NameChar('.') && !NameChar('/') && !NameChar('\\');
  }

  /** A missing, empty or non-string name is rejected as empty before any
      other rule is looked at. */
  lemma EmptyRuleComesFirst(name: Field)
    requires !Truthy(name) || !name.Str?
    ensures IsValidChatName(name) == Verdict(false, EmptyMessage)
  {
  }

  /** The validator accepts exactly the strings whose stripped form matches
      the pattern; an accepted name carries the empty message and a rejected
      one carries one of the first two messages only: the dot, `..` and
      separator rules can never fire. */
  lemma AcceptsExactlyThePattern(name: Field)
    ensures IsValidChatName(name).ok <==> name.Str? && name.s != "" && MatchesNamePattern(Strip(name.s))
    ensures IsValidChatName(name).ok ==> IsValidChatName(name).message == ""
    ensures !IsValidChatName(name).ok ==>
      IsValidChatName(name).message == EmptyMessage || IsValidChatName(name).message == PatternMessage
  {
    var v := IsValidChatName(name);
    if !Truthy(name) || !name.Str? {
      assert v == Verdict(false, EmptyMessage);
    } else {
      var t := Strip(name.s);
      if MatchesNamePattern(t) {
        PatternExcludesPathSyntax(t);
        assert v == Verdict(true, "");
      } else {
        assert v == Verdict(false, PatternMessage);
      }
    }
  }

  /** A non-empty name made only of whitespace gets past the empty-name rule
      (the raw string is non-empty) and is rejected by the pattern rule. */
  lemma WhitespaceOnlyFailsThePattern(s: string)
    requires s != "" && AllSpace(s)
    ensures IsValidChatName(Str(s)) == Verdict(false, PatternMessage)
  {
  }

  /** An accepted name, once stripped, is a usable chat id: one to a hundred
      characters from the class, with no surrounding blanks. */
  lemma AcceptedNameIsSafe(name: Field)
    requires IsValidChatName(name).ok
    ensures name.Str? && MatchesNamePattern(Strip(name.s))
    ensures !HasSeparator(Strip(name.s)) && !HasDoubleDot(Strip(name.s)) && !HasDotEdge(Strip(name.s))
    ensures !IsSpace(Strip(name.s)[0]) && !IsSpace(Strip(name.s)[|Strip(name.s)| - 1])
  {
  }
}
