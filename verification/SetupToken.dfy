/** Reading a setup token: the pasted form, the typed form, and why they agree. */
module SetupToken {
  import opened CaseFolding
  import opened Wrappers

  const MAX_SECRET_BYTES := 1_048_576

  datatype Error = TooLarge | Invalid | BlankLine | Unsupported | InnerWhitespace | ExtraInput | NotAlone

  // ---- Characters ----

  predicate IsBlank(c: char) { c == ' ' || c == '\t' }

  /** Unicode general category Cc. */
  predicate IsControl(c: char) {
    c <= '\U{1F}' || '\U{7F}' <= c <= '\U{9F}'
  }

  /** The Unicode White_Space property. */
  predicate IsWhitespace(c: char) {
    || '\t' <= c <= '\r' || c == ' ' || c == '\U{85}' || c == '\U{A0}' || c == '\U{1680}'
    || '\U{2000}' <= c <= '\U{200A}' || c == '\U{2028}' || c == '\U{2029}' || c == '\U{202F}' || c == '\U{205F}'
    || c == '\U{3000}'
  }

  predicate IsToken(c: char) { !IsControl(c) && !IsWhitespace(c) }

  function Utf8Width(c: char): nat {
    if c < '\U{80}' then 1 else if c < '\U{800}' then 2 else if c < '\U{10000}' then 3 else 4
  }

  function Size(s: string): nat {
    if s == "" then 0 else Size(s[..|s| - 1]) + Utf8Width(s[|s| - 1])
  }

  predicate Clean(s: string) {
    forall i | 0 <= i < |s| :: IsToken(s[i])
  }

  const WRAPPERS := ["export ", "set ", "token:", "setup-token:", "claude_code_oauth_token=", "$env:claude_code_oauth_token="]

  predicate Quote(c: char) { c == '\'' || c == '"' }

  predicate LooksLabeledOrQuoted(s: string) {
    || (exists w | w in WRAPPERS :: w <= Lowered(s))
    || (s != "" && (Quote(s[0]) || Quote(s[|s| - 1])))
  }

  predicate ValidToken(s: string) {
    Size(s) <= MAX_SECRET_BYTES && s != "" && Clean(s) && !LooksLabeledOrQuoted(s)
  }

  function Validate(s: string): Result<(), Error> {
    if Size(s) > MAX_SECRET_BYTES then Err(TooLarge)
    else if s == "" || !Clean(s) || LooksLabeledOrQuoted(s) then Err(Invalid)
    else Ok(())
  }

  // ---- Pasting ----

  /** Carriage returns, alone or before a line feed, become line feeds. */
  function Canonical(s: string): string {
    if s == "" then ""
    else if |s| > 1 && s[0] == '\r' && s[1] == '\n' then "\n" + Canonical(s[2..])
    else if s[0] == '\r' then "\n" + Canonical(s[1..])
    else [s[0]] + Canonical(s[1..])
  }

  predicate EndsLine(s: string) { s != "" && s[|s| - 1] == '\n' }

  function Content(s: string): string {
    if EndsLine(s) then s[..|s| - 1] else s
  }

  function Lines(s: string): (lines: seq<string>)
    ensures lines != []
  {
    if s == "" then [""]
    else
      var rest := Lines(s[1..]);
      if s[0] == '\n' then [""] + rest else [[s[0]] + rest[0]] + rest[1..]
  }

  function TrimStart(s: string): string {
    if s != "" && IsBlank(s[0]) then TrimStart(s[1..]) else s
  }

  function TrimEnd(s: string): string {
    if s != "" && IsBlank(s[|s| - 1]) then TrimEnd(s[..|s| - 1]) else s
  }

  function Trim(s: string): string { TrimEnd(TrimStart(s)) }

  /** The first objection to a line, if any. */
  function Objection(line: string): Option<Error> {
    if Trim(line) == "" then Some(BlankLine) else if !Clean(Trim(line)) then Some(Unsupported) else None
  }

  function Joined(lines: seq<string>): Result<string, Error> {
    if lines == [] then Ok("")
    else
      var n := |lines| - 1;
      var before :- Joined(lines[..n]);
      if Objection(lines[n]).Some? then Err(Objection(lines[n]).value) else Ok(before + Trim(lines[n]))
  }

  function Normalize(paste: string): Result<string, Error> {
    if Size(paste) > MAX_SECRET_BYTES then Err(TooLarge)
    else
      var content := Content(Canonical(paste));
      if content == "" then Err(Invalid)
      else if EndsLine(content) then Err(BlankLine)
      else
        var token :- Joined(Lines(content));
        var _ :- Validate(token);
        Ok(token)
  }

  method NormalizePaste(paste: string) returns (r: Result<string, Error>)
    ensures r == Normalize(paste)
  {
    if Size(paste) > MAX_SECRET_BYTES {
      return Err(TooLarge);
    }
    var content := Content(Canonical(paste));
    if content == "" {
      return Err(Invalid);
    }
    if EndsLine(content) {
      return Err(BlankLine);
    }
    var token, lines := "", Lines(content);
    for i := 0 to |lines|
      invariant Joined(lines[..i]) == Ok(token)
    {
      assert lines[..i + 1][..i] == lines[..i];
      var segment := Trim(lines[i]);
      if segment == "" {
        JoinedFails(lines, i);
        return Err(BlankLine);
      }
      if !Clean(segment) {
        JoinedFails(lines, i);
        return Err(Unsupported);
      }
      token := token + segment;
    }
    assert lines[..|lines|] == lines;
    var _ :- Validate(token);
    return Ok(token);
  }

  lemma {:induction false} JoinedFails(lines: seq<string>, i: nat)
    requires i < |lines| && Joined(lines[..i]).Ok? && Objection(lines[i]).Some?
    ensures Joined(lines) == Err(Objection(lines[i]).value)
    decreases |lines|
  {
    var n := |lines| - 1;
    if i < n {
      assert lines[..n][..i] == lines[..i];
      JoinedFails(lines[..n], i);
    }
  }

  // ---- What the normal form is ----

  /** The text without its blanks and line breaks. */
  function Stripped(s: string): string {
    if s == "" then ""
    else if IsBlank(s[0]) || s[0] == '\r' || s[0] == '\n' then Stripped(s[1..])
    else [s[0]] + Stripped(s[1..])
  }

  lemma {:induction false} StrippedSplits(s: string, t: string)
    ensures Stripped(s + t) == Stripped(s) + Stripped(t)
  {
    if s == "" {
      assert s + t == t;
    } else {
      StrippedSplits(s[1..], t);
      assert (s + t)[1..] == s[1..] + t;
    }
  }

  lemma {:induction false} CanonicalStripped(s: string)
    ensures Stripped(Canonical(s)) == Stripped(s)
  {
    if s != "" {
      var n := if |s| > 1 && s[0] == '\r' && s[1] == '\n' then 2 else 1;
      CanonicalStripped(s[n..]);
      assert s == s[..n] + s[n..];
      StrippedSplits(s[..n], s[n..]);
      StrippedSplits(Canonical(s)[..1], Canonical(s[n..]));
      assert Canonical(s) == Canonical(s)[..1] + Canonical(s[n..]);
    }
  }

  lemma {:induction false} TrimStripped(s: string)
    ensures Stripped(TrimEnd(s)) == Stripped(TrimStart(s)) == Stripped(s)
  {
    if s != "" {
      TrimStripped(s[1..]);
      TrimStripped(s[..|s| - 1]);
      StrippedSplits(s[..|s| - 1], [s[|s| - 1]]);
      assert s == s[..|s| - 1] + [s[|s| - 1]];
    }
  }

  lemma {:induction false} CleanStripped(s: string)
    requires Clean(s)
    ensures Stripped(s) == s
  {
    if s != "" {
      assert IsToken(s[0]);
      CleanStripped(s[1..]);
    }
  }

  lemma LinesStripped(s: string)
    requires Joined(Lines(s)).Ok?
    ensures Joined(Lines(s)).value == Stripped(s)
  {
    JoinedStripped(Lines(s));
    FlatLines(s);
  }

  ghost function Flat(lines: seq<string>): string {
    if lines == [] then "" else Flat(lines[..|lines| - 1]) + lines[|lines| - 1]
  }

  lemma {:induction false} FlatSplits(first: string, rest: seq<string>)
    ensures Flat([first] + rest) == first + Flat(rest)
    decreases rest
  {
    if rest == [] {
      assert ([first] + rest)[..0] == [];
    } else {
      var n := |rest| - 1;
      FlatSplits(first, rest[..n]);
      assert ([first] + rest)[..n + 1] == [first] + rest[..n];
    }
  }

  lemma {:induction false} JoinedStripped(lines: seq<string>)
    requires Joined(lines).Ok?
    ensures Joined(lines).value == Stripped(Flat(lines))
    decreases lines
  {
    if lines != [] {
      var n := |lines| - 1;
      JoinedStripped(lines[..n]);
      TrimStripped(lines[n]);
      TrimStripped(TrimStart(lines[n]));
      CleanStripped(Trim(lines[n]));
      StrippedSplits(Flat(lines[..n]), lines[n]);
    }
  }

  lemma FlatLonger(c: char, rest: seq<string>)
    requires rest != []
    ensures Flat([[c] + rest[0]] + rest[1..]) == [c] + Flat(rest)
  {
    hide Flat;
    FlatSplits(rest[0], rest[1..]);
    assert rest == [rest[0]] + rest[1..];
    FlatSplits([c] + rest[0], rest[1..]);
    assert [c] + rest[0] + Flat(rest[1..]) == [c] + (rest[0] + Flat(rest[1..]));
  }

  lemma {:induction false} FlatLines(s: string)
    ensures Stripped(Flat(Lines(s))) == Stripped(s)
  {
    hide Flat;
    if s == "" {
      NoLines();
    } else {
      var rest := Lines(s[1..]);
      FlatLines(s[1..]);
      if s[0] == '\n' {
        FlatSplits("", rest);
        assert "" + Flat(rest) == Flat(rest);
      } else {
        FlatLonger(s[0], rest);
        StrippedSplits([s[0]], Flat(rest));
        StrippedSplits([s[0]], s[1..]);
        assert s == [s[0]] + s[1..];
      }
    }
  }

  lemma NoLines()
    ensures Flat([""]) == ""
  {
    assert [""][..0] == [];
  }

  /** An accepted paste comes to exactly its characters without blanks and line breaks, and those make a valid token. */
  lemma NormalForm(paste: string)
    requires Normalize(paste).Ok?
    ensures Normalize(paste).value == Stripped(paste) && ValidToken(Stripped(paste))
  {
    var canonical := Canonical(paste);
    var content := Content(canonical);
    CanonicalStripped(paste);
    if EndsLine(canonical) {
      StrippedSplits(content, "\n");
      assert canonical == content + "\n";
    }
    LinesStripped(content);
  }

  // ---- What is accepted ----

  lemma {:induction false} CleanIsCanonical(s: string)
    requires Clean(s)
    ensures Canonical(s) == s && TrimStart(s) == s && TrimEnd(s) == s
    ensures Lines(s) == [s]
  {
    if s != "" {
      assert IsToken(s[0]) && IsToken(s[|s| - 1]);
      CleanIsCanonical(s[1..]);
      assert s == [s[0]] + s[1..];
    }
  }

  /** A valid token pastes to itself, whether or not a line ends after it. */
  lemma TokensAreNormal(token: string, ending: string)
    requires ValidToken(token) && ending in {"", "\n", "\r", "\r\n"} && Size(token + ending) <= MAX_SECRET_BYTES
    ensures Normalize(token + ending) == Ok(token)
  {
    hide Size, Clean, LooksLabeledOrQuoted, Canonical, Lines, Joined;
    CanonicalEnding(token, ending);
    JoinedToken(token);
    NoLineEnd(token);
    assert Content(Canonical(token + ending)) == token;
  }

  lemma NoLineEnd(token: string)
    requires Clean(token) && token != ""
    ensures !EndsLine(token) && Content(token) == token && Content(token + "\n") == token
  {
    assert IsToken(token[|token| - 1]);
  }

  lemma JoinedToken(token: string)
    requires Clean(token) && token != ""
    ensures Joined(Lines(token)) == Ok(token)
  {
    CleanIsCanonical(token);
    assert [token][..0] == [] && [token][0] == token;
    assert Objection(token).None?;
    assert "" + Trim(token) == token;
  }

  lemma {:induction false} CanonicalEnding(token: string, ending: string)
    requires Clean(token) && ending in {"", "\n", "\r", "\r\n"}
    ensures Canonical(token + ending) == token + if ending == "" then "" else "\n"
  {
    if token == "" {
      assert token + ending == ending;
    } else {
      assert IsToken(token[0]);
      CanonicalEnding(token[1..], ending);
      assert (token + ending)[1..] == token[1..] + ending;
    }
  }

  /** Nothing behind a label, in whatever ASCII case, and nothing that begins or ends with a quote is a token. */
  lemma WrappedIsNoToken(wrapper: string, rest: string, quote: char)
    ensures Lowered(wrapper) in {"export ", "set ", "token:", "setup-token:", "claude_code_oauth_token=", "$env:claude_code_oauth_token="}
            ==> !ValidToken(wrapper + rest)
    ensures quote == '\'' || quote == '"' ==> !ValidToken([quote] + rest) && !ValidToken(rest + [quote])
  {
    hide Size, Clean;
    if Lowered(wrapper) in WRAPPERS {
      assert Lowered(wrapper) <= Lowered(wrapper + rest);
    }
    assert WRAPPERS[0] == "export " && WRAPPERS[1] == "set " && WRAPPERS[2] == "token:" && WRAPPERS[3] == "setup-token:"
           && WRAPPERS[4] == "claude_code_oauth_token=" && WRAPPERS[5] == "$env:claude_code_oauth_token=";
  }

  /** What is objected to in a paste: its size, then nothing in it, then a blank or unsupported line, then the token itself. */
  lemma PasteObjections(paste: string, error: Error)
    requires Normalize(paste) == Err(error)
    ensures var content := Content(Canonical(paste));
      if Size(paste) > MAX_SECRET_BYTES then error == TooLarge
      else if content == "" then error == Invalid
      else if EndsLine(content) then error == BlankLine
      else if exists line | line in Lines(content) :: Objection(line).Some? then
        error in {BlankLine, Unsupported} && exists line | line in Lines(content) :: Objection(line) == Some(error)
      else !ValidToken(Stripped(content))
  {
    var content := Content(Canonical(paste));
    if Size(paste) <= MAX_SECRET_BYTES && content != "" && !EndsLine(content) {
      JoinedIff(Lines(content));
      if Joined(Lines(content)).Ok? {
        LinesStripped(content);
      }
    }
  }

  lemma {:induction false} JoinedIff(lines: seq<string>)
    ensures Joined(lines).Ok? <==> forall line | line in lines :: Objection(line).None?
    ensures Joined(lines).Err? ==> exists line | line in lines :: Objection(line) == Some(Joined(lines).error)
    decreases lines
  {
    hide Objection;
    if lines != [] {
      var n := |lines| - 1;
      JoinedIff(lines[..n]);
      assert lines == lines[..n] + [lines[n]];
    }
  }
}
