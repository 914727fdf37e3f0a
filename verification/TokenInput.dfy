/** The key-by-key token reader, and its agreement with pasting. */
module TokenInput {
  import opened Wrappers
  import opened SetupToken

  datatype InputState = Initial | Content | TrailingWhitespace | ContinuationStart | BracketedPaste

  datatype Input = Input(value: string, state: InputState)

  datatype Key = Char(c: char, control: bool) | Tab | Enter | Backspace | Escape | Other

  /** What the terminal delivers; a repeated key counts as pressed again. */
  datatype Event = Press(key: Key) | Release(key: Key) | Paste(text: string) | Unrelated

  datatype Action = Wait | Continue | Finish | Cancel | Interrupt

  function Settle(value: string): InputState {
    if value == "" then Initial else Content
  }

  // ---- What each key does: the new input, and the action or the error ----

  function OnBlank(i: Input): (Input, Result<(), Error>) {
    match i.state
    case Initial => (i, Ok(()))
    case ContinuationStart => (i, Ok(()))
    case Content => (i.(state := TrailingWhitespace), Ok(()))
    case TrailingWhitespace => (i, Ok(()))
    case BracketedPaste => (i, Err(ExtraInput))
  }

  function OnCharacter(i: Input, c: char): (Input, Result<(), Error>) {
    if IsBlank(c) then OnBlank(i)
    else if !IsToken(c) then (i, Err(Invalid))
    else if i.state.TrailingWhitespace? then (i, Err(InnerWhitespace))
    else if i.state.BracketedPaste? then (i, Err(ExtraInput))
    else if Size(i.value) + Utf8Width(c) > MAX_SECRET_BYTES then (i, Err(TooLarge))
    else (Input(i.value + [c], Content), Ok(()))
  }

  function OnPaste(i: Input, text: string): (Input, Result<(), Error>) {
    if i.value != "" || !i.state.Initial? then (i.(state := BracketedPaste), Err(NotAlone))
    else
      match Normalize(text)
      case Ok(token) => (Input(token, BracketedPaste), Ok(()))
      case Err(error) => (i.(state := BracketedPaste), Err(error))
  }

  function OnEnter(i: Input): (Input, Action) {
    if i.state.BracketedPaste? || i.state.ContinuationStart? then (i, Finish) else (i.(state := ContinuationStart), Continue)
  }

  function OnBackspace(i: Input): Input {
    match i.state
    case Initial => i
    case TrailingWhitespace => i.(state := Content)
    case ContinuationStart => i.(state := Settle(i.value))
    case _ =>
      var value := if i.value == "" then "" else i.value[..|i.value| - 1];
      Input(value, Settle(value))
  }

  function Waiting(step: (Input, Result<(), Error>)): (Input, Result<Action, Error>) {
    (step.0, if step.1.Ok? then Ok(Wait) else Err(step.1.error))
  }

  function OnKey(i: Input, key: Key): (Input, Result<Action, Error>) {
    match key
    case Char(c, control) =>
      if !control then Waiting(OnCharacter(i, c))
      else (i, Ok(if c == 'c' then Interrupt else if c == 'd' then Finish else Wait))
    case Tab => Waiting(OnBlank(i))
    case Enter => var (next, action) := OnEnter(i); (next, Ok(action))
    case Backspace => (OnBackspace(i), Ok(Wait))
    case Escape => (i, Ok(Cancel))
    case Other => (i, Ok(Wait))
  }

  /** The reader itself. */
  class ClaudeSetupTokenInput {
    var value: string
    var state: InputState

    function Data(): Input
      reads this
    {
      Input(value, state)
    }

    constructor ()
      ensures Data() == Input("", Initial)
    {
      value, state := "", Initial;
    }

    method PushHorizontalWhitespace() returns (r: Result<(), Error>)
      modifies this
      ensures (Data(), r) == OnBlank(old(Data()))
    {
      match state {
        case Initial => return Ok(());
        case ContinuationStart => return Ok(());
        case BracketedPaste => return Err(ExtraInput);
        case _ =>
          state := TrailingWhitespace;
          return Ok(());
      }
    }

    method PushCharacter(c: char) returns (r: Result<(), Error>)
      modifies this
      ensures (Data(), r) == OnCharacter(old(Data()), c)
    {
      if IsBlank(c) {
        r := PushHorizontalWhitespace();
        return;
      }
      if IsControl(c) || IsWhitespace(c) {
        return Err(Invalid);
      }
      match state {
        case TrailingWhitespace => return Err(InnerWhitespace);
        case BracketedPaste => return Err(ExtraInput);
        case _ =>
          if Size(value) + Utf8Width(c) > MAX_SECRET_BYTES {
            return Err(TooLarge);
          }
          value := value + [c];
          state := Content;
          return Ok(());
      }
    }

    method PushPaste(text: string) returns (r: Result<(), Error>)
      modifies this
      ensures (Data(), r) == OnPaste(old(Data()), text)
    {
      if value != "" || !state.Initial? {
        state := BracketedPaste;
        return Err(NotAlone);
      }
      state := BracketedPaste;
      var token :- NormalizePaste(text);
      value := token;
      return Ok(());
    }

    method SubmitOrContinue() returns (action: Action)
      modifies this
      ensures (Data(), action) == OnEnter(old(Data()))
    {
      if state.BracketedPaste? || state.ContinuationStart? {
        return Finish;
      }
      state := ContinuationStart;
      return Continue;
    }

    method EraseLast()
      modifies this
      ensures Data() == OnBackspace(old(Data()))
    {
      match state {
        case TrailingWhitespace => state := Content;
        case ContinuationStart => state := if value == "" then Initial else Content;
        case Initial =>
        case _ =>
          if value != "" {
            value := value[..|value| - 1];
          }
          state := if value == "" then Initial else Content;
      }
    }

    method HandleKey(key: Key) returns (r: Result<Action, Error>)
      modifies this
      ensures (Data(), r) == OnKey(old(Data()), key)
    {
      match key {
        case Char('c', true) => return Ok(Interrupt);
        case Char('d', true) => return Ok(Finish);
        case Enter =>
          var action := SubmitOrContinue();
          return Ok(action);
        case Tab =>
          var _ :- PushHorizontalWhitespace();
          return Ok(Wait);
        case Backspace =>
          EraseLast();
          return Ok(Wait);
        case Escape => return Ok(Cancel);
        case Char(c, false) =>
          var _ :- PushCharacter(c);
          return Ok(Wait);
        case _ => return Ok(Wait);
      }
    }

    method FinishInput() returns (r: Result<string, Error>)
      ensures r.Ok? <==> ValidToken(value)
      ensures r.Ok? ==> r.value == value
    {
      var _ :- Validate(value);
      return Ok(value);
    }
  }

  // ---- Every sequence of keys keeps the text clean ----

  /** The text never holds blanks or control characters, never exceeds the limit, and the state says whether it is empty. */
  predicate WellFormed(i: Input) {
    && Clean(i.value) && Size(i.value) <= MAX_SECRET_BYTES
    && (i.state.Initial? ==> i.value == "")
    && (i.state.Content? || i.state.TrailingWhitespace? ==> i.value != "")
  }

  lemma NormalizedIsValid(text: string)
    requires Normalize(text).Ok?
    ensures ValidToken(Normalize(text).value)
  {
  }

  lemma SizeOfPrefix(s: string, c: char)
    ensures Size(s + [c]) == Size(s) + Utf8Width(c)
  {
    assert (s + [c])[..|s|] == s;
  }

  lemma KeyKeepsForm(i: Input, key: Key)
    requires WellFormed(i)
    ensures WellFormed(OnKey(i, key).0)
  {
    hide Size, IsToken, Normalize, LooksLabeledOrQuoted;
    match key
    case Char(c, _) => SizeOfPrefix(i.value, c);
    case Backspace => SizeOfFront(i.value);
    case _ =>
  }

  lemma PasteKeepsForm(i: Input, text: string)
    requires WellFormed(i)
    ensures WellFormed(OnPaste(i, text).0)
  {
    hide Size, IsToken, Normalize, LooksLabeledOrQuoted;
    if Normalize(text).Ok? {
      NormalizedIsValid(text);
    }
  }

  lemma SizeOfFront(s: string)
    ensures s != "" ==> Size(s[..|s| - 1]) <= Size(s)
    ensures Size("") == 0
  {
  }

  // ---- What each key means ----

  predicate AddsToken(i: Input, c: char) {
    IsToken(c) && !i.state.TrailingWhitespace? && !i.state.BracketedPaste? && Size(i.value) + Utf8Width(c) <= MAX_SECRET_BYTES
  }

  /** Control-c interrupts, control-d finishes, Escape cancels, and Enter finishes an empty line or a paste; only a token's
      character lengthens the text, only Backspace shortens it. */
  lemma KeyAnswers(i: Input, key: Key)
    ensures var (next, r) := OnKey(i, key);
      && (r == Ok(Interrupt) <==> key == Char('c', true))
      && (r == Ok(Cancel) <==> key == Escape)
      && (r == Ok(Finish) <==>
            key == Char('d', true) || (key == Enter && (i.state.BracketedPaste? || i.state.ContinuationStart?)))
      && (r == Ok(Continue) <==> key == Enter && !i.state.BracketedPaste? && !i.state.ContinuationStart?)
      && (|next.value| > |i.value| <==> key.Char? && !key.control && AddsToken(i, key.c))
      && (key.Char? && !key.control && AddsToken(i, key.c) ==> next == Input(i.value + [key.c], Content) && r == Ok(Wait))
      && (|next.value| <= |i.value| && key != Backspace ==> next.value == i.value)
  {
    hide Size, Utf8Width;
  }

  /** What a character or a tab is refused for: blanks after a paste, or anything but a token's character anywhere else. */
  lemma KeyObjections(i: Input, key: Key)
    ensures var r := OnKey(i, key).1;
      && (r.Err? ==> key == Tab || (key.Char? && !key.control))
      && (r.Err? && key.Char? && !IsBlank(key.c) ==>
            r.error == if !IsToken(key.c) then Invalid
                       else if i.state.TrailingWhitespace? then InnerWhitespace
                       else if i.state.BracketedPaste? then ExtraInput
                       else TooLarge)
      && (key == Tab || (key.Char? && !key.control && IsBlank(key.c)) ==>
            (r.Err? <==> i.state.BracketedPaste?) && (r.Err? ==> r.error == ExtraInput))
  {
    hide Size, Utf8Width;
  }

  /** Backspace takes back the key before it: a token's character, the first blank after the text, or the end of a line. */
  lemma BackspaceUndoes(i: Input, key: Key)
    requires i.state == Settle(i.value)
    requires key == Tab || key == Enter || (key.Char? && !key.control)
    ensures var (typed, r) := OnKey(i, key);
      r.Ok? ==> OnBackspace(typed) == i
  {
    hide Size, Utf8Width;
  }

  // ---- A whole prompt ----

  /** The reader's input, and the first objection met so far. */
  datatype Reader = Reader(input: Input, held: Option<Error>)

  datatype Progress =
    | Pending(reader: Reader)
    | Finished(reader: Reader, unread: seq<Event>)
    | Cancelled
    | Interrupted

  function Hold<T>(held: Option<Error>, r: Result<T, Error>): Option<Error> {
    if held.None? && r.Err? then Some(r.error) else held
  }

  /** An objection is held, not reported, so that the prompt goes on reading to its end. */
  function React(s: Reader, e: Event): (Reader, Action) {
    match e
    case Paste(text) =>
      var (next, r) := OnPaste(s.input, text);
      (Reader(next, Hold(s.held, r)), Wait)
    case Press(key) =>
      var (next, r) := OnKey(s.input, key);
      (Reader(next, Hold(s.held, r)), if r.Ok? then r.value else Wait)
    case _ => (s, Wait)
  }

  /** What the prompt comes to. */
  function Feed(s: Reader, events: seq<Event>): Progress
    decreases events
  {
    if events == [] then Pending(s)
    else
      var (next, action) := React(s, events[0]);
      match action
      case Finish => Finished(next, events[1..])
      case Cancel => Cancelled
      case Interrupt => Interrupted
      case _ => Feed(next, events[1..])
  }

  /** The token a finished prompt returns, or what it objects to. */
  function Outcome(p: Progress): Option<Result<string, Error>> {
    if !p.Finished? then None
    else if p.reader.held.Some? then Some(Err(p.reader.held.value))
    else
      match Validate(p.reader.input.value)
      case Ok(_) => Some(Ok(p.reader.input.value))
      case Err(error) => Some(Err(error))
  }

  /** Read events until one ends the prompt. */
  method ReadPrompt(input: ClaudeSetupTokenInput, events: seq<Event>) returns (p: Progress)
    modifies input
    ensures p == Feed(Reader(old(input.Data()), None), events)
  {
    hide OnKey, OnPaste;
    var held: Option<Error> := None;
    var i := 0;
    assert events[0..] == events;
    while i < |events|
      invariant i <= |events|
      invariant Feed(Reader(old(input.Data()), None), events) == Feed(Reader(input.Data(), held), events[i..])
    {
      var rest := events[i..][1..];
      assert rest == events[i + 1..];
      match events[i] {
        case Paste(text) =>
          var pasted := input.PushPaste(text);
          held := Hold(held, pasted);
        case Press(key) =>
          var handled := input.HandleKey(key);
          held := Hold(held, handled);
          match handled {
            case Ok(Finish) => return Finished(Reader(input.Data(), held), rest);
            case Ok(Cancel) => return Cancelled;
            case Ok(Interrupt) => return Interrupted;
            case _ =>
          }
        case _ =>
      }
      i := i + 1;
    }
    return Pending(Reader(input.Data(), held));
  }

  /** The input part of any progress stays clean, whatever is typed or pasted. */
  lemma {:induction false} FeedKeepsForm(s: Reader, events: seq<Event>)
    requires WellFormed(s.input)
    ensures Feed(s, events).Pending? || Feed(s, events).Finished? ==> WellFormed(Feed(s, events).reader.input)
    decreases events
  {
    hide WellFormed, OnKey, OnPaste;
    if events != [] {
      match events[0] {
        case Paste(text) => PasteKeepsForm(s.input, text);
        case Press(key) => KeyKeepsForm(s.input, key);
        case _ =>
      }
      FeedKeepsForm(React(s, events[0]).0, events[1..]);
    }
  }

  /** Once something was objected to, no further input makes the prompt return a token: it ends with that objection. */
  lemma {:induction false} HeldForGood(s: Reader, events: seq<Event>)
    requires s.held.Some?
    ensures Feed(s, events).Finished? ==> Outcome(Feed(s, events)) == Some(Err(s.held.value))
    decreases events
  {
    hide OnKey, OnPaste;
    if events != [] {
      HeldForGood(React(s, events[0]).0, events[1..]);
    }
  }

  lemma {:induction false} FeedAppend(s: Reader, first: seq<Event>, second: seq<Event>)
    requires Feed(s, first).Pending?
    ensures Feed(s, first + second) == Feed(Feed(s, first).reader, second)
    decreases first
  {
    hide React;
    if first == [] {
      assert first + second == second;
    } else {
      assert (first + second)[1..] == first[1..] + second;
      FeedAppend(React(s, first[0]).0, first[1..], second);
    }
  }

  // ---- Typing what could have been pasted ----

  function KeyFor(c: char): Key { if c == '\t' then Tab else Char(c, false) }

  function Typed(line: string): seq<Event> {
    seq(|line|, i requires 0 <= i < |line| => Press(KeyFor(line[i])))
  }

  const ENTER := [Press(Enter)]

  /** A reader that has objected to nothing. */
  function Calm(i: Input): Reader { Reader(i, None) }

  /** Each line's characters, and Enter at each line's end. */
  function TypedLines(lines: seq<string>): seq<Event> {
    if lines == [] then [] else TypedLines(lines[..|lines| - 1]) + Typed(lines[|lines| - 1]) + ENTER
  }

  predicate AllBlank(s: string) {
    forall i | 0 <= i < |s| :: IsBlank(s[i])
  }

  lemma {:induction false} TrimSplits(line: string) returns (lead: string, trail: string)
    ensures line == lead + Trim(line) + trail && AllBlank(lead) && AllBlank(trail)
  {
    lead := Leading(line);
    trail := Trailing(TrimStart(line));
  }

  lemma {:induction false} Leading(s: string) returns (lead: string)
    ensures s == lead + TrimStart(s) && AllBlank(lead)
  {
    if s != "" && IsBlank(s[0]) {
      lead := Leading(s[1..]);
      assert s == [s[0]] + s[1..];
      lead := [s[0]] + lead;
    } else {
      lead := "";
    }
  }

  lemma {:induction false} Trailing(s: string) returns (trail: string)
    ensures s == TrimEnd(s) + trail && AllBlank(trail)
  {
    if s != "" && IsBlank(s[|s| - 1]) {
      trail := Trailing(s[..|s| - 1]);
      assert s == s[..|s| - 1] + [s[|s| - 1]];
      trail := trail + [s[|s| - 1]];
    } else {
      trail := "";
    }
  }

  lemma {:induction false} FeedBlanks(i: Input, blanks: string) returns (after: Input)
    requires AllBlank(blanks) && !i.state.BracketedPaste?
    ensures Feed(Calm(i), Typed(blanks)) == Pending(Calm(after)) && after.value == i.value
    ensures i.state.Initial? || i.state.ContinuationStart? ==> after == i
    ensures !after.state.BracketedPaste?
    ensures i.state.Content? || i.state.TrailingWhitespace? ==> after.state.Content? || after.state.TrailingWhitespace?
    decreases blanks
  {
    after := i;
    if blanks != "" {
      assert Typed(blanks)[0] == Press(KeyFor(blanks[0])) && Typed(blanks)[1..] == Typed(blanks[1..]);
      after := FeedBlanks(OnBlank(i).0, blanks[1..]);
    }
  }

  predicate Accepting(s: InputState) { s.Initial? || s.Content? || s.ContinuationStart? }

  lemma {:induction false} SizeSplits(s: string, t: string)
    ensures Size(s + t) == Size(s) + Size(t)
    decreases t
  {
    if t == "" {
      assert s + t == s;
    } else {
      var n := |t| - 1;
      SizeSplits(s, t[..n]);
      assert s + t == (s + t[..n]) + [t[n]];
      SizeOfPrefix(s + t[..n], t[n]);
    }
  }

  lemma TokenKey(i: Input, c: char, more: string)
    requires IsToken(c) && Accepting(i.state) && Size(i.value + [c] + more) <= MAX_SECRET_BYTES
    ensures React(Calm(i), Press(KeyFor(c))) == (Calm(Input(i.value + [c], Content)), Wait)
  {
    SizeSplits(i.value + [c], more);
    SizeOfPrefix(i.value, c);
  }

  lemma {:induction false} FeedToken(i: Input, text: string)
    requires Clean(text) && Accepting(i.state) && Size(i.value + text) <= MAX_SECRET_BYTES
    ensures Feed(Calm(i), Typed(text)) == Pending(Calm(if text == "" then i else Input(i.value + text, Content)))
    decreases text
  {
    hide React, Size, IsToken, KeyFor;
    if text != "" {
      var next := Input(i.value + [text[0]], Content);
      assert Typed(text)[0] == Press(KeyFor(text[0])) && Typed(text)[1..] == Typed(text[1..]);
      assert i.value + text == (i.value + [text[0]]) + text[1..];
      TokenKey(i, text[0], text[1..]);
      FeedToken(next, text[1..]);
    }
  }

  function Erasing(n: nat): seq<Event> {
    seq(n, _ => Press(Backspace))
  }

  /** Backspaces after a clean text leave all but as many of its last characters. */
  lemma {:induction false} ErasingUndoesTyping(i: Input, text: string, n: nat)
    requires Clean(text) && i.state == Settle(i.value) && Size(i.value + text) <= MAX_SECRET_BYTES && n <= |text|
    ensures var kept := i.value + text[..|text| - n];
      Feed(Calm(i), Typed(text) + Erasing(n)) == Pending(Calm(Input(kept, Settle(kept))))
  {
    hide Size, IsToken, KeyFor, Typed;
    FeedToken(i, text);
    FeedAppend(Calm(i), Typed(text), Erasing(n));
    if text == "" {
      assert i.value + text == i.value && text[..0] == text;
    }
    FeedErasing(i.value + text, n);
    assert (i.value + text)[..|i.value + text| - n] == i.value + text[..|text| - n];
  }

  lemma {:induction false} FeedErasing(value: string, n: nat)
    requires n <= |value|
    ensures var kept := value[..|value| - n];
      Feed(Calm(Input(value, Settle(value))), Erasing(n)) == Pending(Calm(Input(kept, Settle(kept))))
    decreases n
  {
    if n == 0 {
      assert value[..|value|] == value;
    } else {
      var shorter := value[..|value| - 1];
      assert Erasing(n)[1..] == Erasing(n - 1);
      FeedErasing(shorter, n - 1);
      assert shorter[..|shorter| - (n - 1)] == value[..|value| - n];
    }
  }

  /** Typing one acceptable line and Enter appends the line's segment. */
  lemma FeedLine(i: Input, line: string)
    requires Objection(line).None? && (i.state.Initial? || i.state.ContinuationStart?)
    requires Size(i.value + Trim(line)) <= MAX_SECRET_BYTES
    ensures Feed(Calm(i), Typed(line) + ENTER) == Pending(Calm(Input(i.value + Trim(line), ContinuationStart)))
  {
    hide Trim, Clean, AllBlank, ENTER;
    var segment := Trim(line);
    var lead, trail := TrimSplits(line);
    assert Typed(line) == Typed(lead) + (Typed(segment) + Typed(trail));
    var started := FeedBlanks(i, lead);
    FeedToken(i, segment);
    var typed := Input(i.value + segment, Content);
    var ended := FeedBlanks(typed, trail);
    FeedAppend(Calm(i), Typed(segment), Typed(trail));
    FeedAppend(Calm(i), Typed(lead), Typed(segment) + Typed(trail));
    FeedAppend(Calm(i), Typed(line), ENTER);
    FeedEnter(ended);
  }

  lemma FeedEnter(i: Input)
    requires i.state.Content? || i.state.TrailingWhitespace?
    ensures Feed(Calm(i), ENTER) == Pending(Calm(i.(state := ContinuationStart)))
  {
    assert ENTER[1..] == [];
  }

  /** Enter on an empty continuation line, or after a paste, ends the prompt. */
  lemma FeedLastEnter(i: Input)
    requires i.state.ContinuationStart? || i.state.BracketedPaste?
    ensures Feed(Calm(i), ENTER) == Finished(Calm(i), [])
  {
    assert ENTER[1..] == [];
  }

  lemma {:induction false} FeedLines(lines: seq<string>)
    requires lines != [] && Joined(lines).Ok? && Size(Joined(lines).value) <= MAX_SECRET_BYTES
    ensures Feed(Calm(Input("", Initial)), TypedLines(lines)) == Pending(Calm(Input(Joined(lines).value, ContinuationStart)))
    decreases lines
  {
    hide ENTER;
    var n := |lines| - 1;
    var start, last := Input("", Initial), lines[n];
    var keys := Typed(last) + ENTER;
    assert TypedLines(lines) == TypedLines(lines[..n]) + keys;
    if n == 0 {
      assert lines[..0] == [];
      assert TypedLines(lines) == keys;
      assert Joined(lines).value == "" + Trim(last);
      FeedLine(start, last);
    } else {
      SizeSplits(Joined(lines[..n]).value, Trim(last));
      FeedLines(lines[..n]);
      FeedAppend(Calm(start), TypedLines(lines[..n]), keys);
      FeedLine(Input(Joined(lines[..n]).value, ContinuationStart), last);
    }
  }

  /** The keys for a text: its canonical lines, Enter at each line's end, and one more Enter. */
  function Retyped(text: string): seq<Event> {
    TypedLines(Lines(SetupToken.Content(Canonical(text)))) + ENTER
  }

  /** Typing an accepted paste line by line ends the prompt exactly at the extra Enter, with the same token. */
  lemma TypedAgreesWithPasted(text: string)
    requires Normalize(text).Ok?
    ensures var token, untouched := Normalize(text).value, Calm(Input("", Initial));
      && Feed(untouched, Retyped(text)) == Finished(Calm(Input(token, ContinuationStart)), [])
      && Outcome(Feed(untouched, Retyped(text))) == Some(Ok(token))
      && Outcome(Feed(untouched, [Paste(text)] + ENTER)) == Some(Ok(token))
  {
    var lines := Lines(SetupToken.Content(Canonical(text)));
    var token := Normalize(text).value;
    NormalizedIsValid(text);
    FeedLines(lines);
    FeedAppend(Calm(Input("", Initial)), TypedLines(lines), ENTER);
    FeedLastEnter(Input(token, ContinuationStart));
    FeedLastEnter(Input(token, BracketedPaste));
    assert ([Paste(text)] + ENTER)[1..] == ENTER;
  }
}
