/** Command rendering for review, and the reading of rendered text by word splitting and quote removal. */
module Shell {
  import opened Wrappers

  // ----- The renderer -----

  predicate IsAsciiAlphanumeric(c: char) {
    'a' <= c <= 'z' || 'A' <= c <= 'Z' || '0' <= c <= '9'
  }

  predicate IsPlain(c: char) {
    IsAsciiAlphanumeric(c) || c in "_+-./:=@"
  }

  /** Every single quote becomes `'"'"'`. */
  function Escaped(value: string): string {
    if value == "" then ""
    else (if value[0] == '\'' then "'\"'\"'" else [value[0]]) + Escaped(value[1..])
  }

  function ShellQuote(value: string): string {
    if value != "" && forall c :: c in value ==> IsPlain(c) then value
    else "'" + Escaped(value) + "'"
  }

  function Rendered(words: seq<string>): string
    requires words != []
  {
    if |words| == 1 then ShellQuote(words[0])
    else ShellQuote(words[0]) + " " + Rendered(words[1..])
  }

  function RenderCommand(program: string, arguments: seq<string>): string {
    Rendered([program] + arguments)
  }

  // ----- The shell's reading -----
  //
  // Token recognition (section 2.3 of POSIX.1-2017 XCU), single quotes (2.2.2), double
  // quotes (2.2.3), the escape character (2.2.1) and quote removal (2.6.7), for texts
  // that are a plain list of words. Anything more (an operator, an expansion, a pattern,
  // a line break, an unfinished quote) has no reading here.

  datatype Mode = Between | Unquoted | SingleQuoted | DoubleQuoted

  predicate IsSeparator(c: char) {
    c == ' ' || c == '\t'
  }

  predicate IsMoreThanText(c: char) {
    c in "&|;<>()\n\r$`*?[~"
  }

  function Begin(word: string, rest: Option<seq<string>>): Option<seq<string>> {
    if rest.Some? then Some([word] + rest.value) else None
  }

  /** The words of `text`, read from the given mode with `word` the part of a word already read. */
  function Read(text: string, mode: Mode, word: string): Option<seq<string>>
    decreases |text|, mode == Between
  {
    if text == "" then
      match mode
      case Between => Some([])
      case Unquoted => Some([word])
      case _ => None
    else
      var c, rest := text[0], text[1..];
      match mode
      case Between =>
        if IsSeparator(c) then Read(rest, Between, "")
        else if c == '#' then (if '\n' in rest then None else Some([]))
        else Read(text, Unquoted, "")
      case Unquoted =>
        if IsSeparator(c) then Begin(word, Read(rest, Between, ""))
        else if c == '\'' then Read(rest, SingleQuoted, word)
        else if c == '"' then Read(rest, DoubleQuoted, word)
        else if c == '\\' then
          if rest == "" || rest[0] == '\n' then None else Read(rest[1..], Unquoted, word + [rest[0]])
        else if IsMoreThanText(c) then None
        else Read(rest, Unquoted, word + [c])
      case SingleQuoted =>
        if c == '\'' then Read(rest, Unquoted, word) else Read(rest, SingleQuoted, word + [c])
      case DoubleQuoted =>
        if c == '"' then Read(rest, Unquoted, word)
        else if c == '$' || c == '`' then None
        else if c == '\\' && rest != "" && rest[0] in "$`\"\\" then Read(rest[1..], DoubleQuoted, word + [rest[0]])
        else if c == '\\' && rest != "" && rest[0] == '\n' then Read(rest[1..], DoubleQuoted, word)
        else Read(rest, DoubleQuoted, word + [c])
  }

  function ShellWords(text: string): Option<seq<string>> {
    Read(text, Between, "")
  }

  // ----- Rendering is undone by reading -----

  lemma {:induction false} ReadPlain(value: string, rest: string, word: string)
    requires forall c :: c in value ==> IsPlain(c)
    ensures Read(value + rest, Unquoted, word) == Read(rest, Unquoted, word + value)
  {
    if value == "" {
      assert value + rest == rest && word + value == word;
    } else {
      assert (value + rest)[1..] == value[1..] + rest;
      ReadPlain(value[1..], rest, word + [value[0]]);
      assert word + [value[0]] + value[1..] == word + value;
      assert value[0] in value;
    }
  }

  /** The five characters that stand for one single quote. */
  lemma ReadQuotedQuote(rest: string, word: string)
    ensures Read("'\"'\"'" + rest, SingleQuoted, word) == Read(rest, SingleQuoted, word + "'")
  {
    assert ("'\"'\"'" + rest)[1..] == "\"'\"'" + rest;
    assert ("\"'\"'" + rest)[1..] == "'\"'" + rest;
    assert ("'\"'" + rest)[1..] == "\"'" + rest;
    assert ("\"'" + rest)[1..] == "'" + rest;
    assert ("'" + rest)[1..] == rest;
    assert Read("'\"'" + rest, DoubleQuoted, word) == Read("\"'" + rest, DoubleQuoted, word + "'");
    assert Read("\"'" + rest, DoubleQuoted, word + "'") == Read("'" + rest, Unquoted, word + "'");
  }

  lemma {:induction false} ReadEscaped(value: string, rest: string, word: string)
    ensures Read(Escaped(value) + "'" + rest, SingleQuoted, word) == Read(rest, Unquoted, word + value)
  {
    var text := Escaped(value) + "'" + rest;
    if value == "" {
      assert text == "'" + rest && text[1..] == rest && word + value == word;
    } else {
      var c, tail := value[0], Escaped(value[1..]) + "'" + rest;
      ReadEscaped(value[1..], rest, word + [c]);
      assert word + [c] + value[1..] == word + value;
      if c == '\'' {
        assert text == "'\"'\"'" + tail;
        ReadQuotedQuote(tail, word);
      } else {
        assert text == [c] + tail && text[1..] == tail;
      }
    }
  }

  lemma ReadOneWord(value: string, rest: string)
    requires rest == "" || rest[0] == ' '
    ensures Read(ShellQuote(value) + rest, Between, "") == Read(rest, Unquoted, value)
  {
    var text := ShellQuote(value) + rest;
    if value != "" && forall c :: c in value ==> IsPlain(c) {
      assert value[0] in value && text[0] == value[0];
      ReadPlain(value, rest, "");
      assert "" + value == value;
    } else {
      assert text == "'" + (Escaped(value) + "'" + rest);
      assert text[1..] == Escaped(value) + "'" + rest;
      ReadEscaped(value, rest, "");
      assert "" + value == value;
    }
  }

  lemma {:induction false} ReadRendered(words: seq<string>)
    requires words != []
    ensures ShellWords(Rendered(words)) == Some(words)
  {
    if |words| == 1 {
      ReadOneWord(words[0], "");
      assert ShellQuote(words[0]) + "" == Rendered(words);
      assert words == [words[0]];
    } else {
      var rest := " " + Rendered(words[1..]);
      ReadOneWord(words[0], rest);
      assert Rendered(words) == ShellQuote(words[0]) + rest;
      assert rest[1..] == Rendered(words[1..]);
      ReadRendered(words[1..]);
      assert Read(rest, Unquoted, words[0]) == Begin(words[0], ShellWords(rest[1..]));
      assert words == [words[0]] + words[1..];
    }
  }

  /** Shell round trip: the rendered text reads back as the program and its arguments. */
  lemma RenderedCommandReadsBack(program: string, arguments: seq<string>)
    ensures ShellWords(RenderCommand(program, arguments)) == Some([program] + arguments)
  {
    ReadRendered([program] + arguments);
  }

  /** Rendering is injective: one text never stands for two commands. */
  lemma RenderingIsInjective(p: string, args: seq<string>, p': string, args': seq<string>)
    requires RenderCommand(p, args) == RenderCommand(p', args')
    ensures p == p' && args == args'
  {
    RenderedCommandReadsBack(p, args);
    RenderedCommandReadsBack(p', args');
    assert ([p] + args)[0] == p && ([p'] + args')[0] == p';
    assert ([p] + args)[1..] == args && ([p'] + args')[1..] == args';
  }

  // ----- What stays readable -----

  lemma {:induction false} EscapingGrows(value: string)
    ensures |Escaped(value)| >= |value|
  {
    if value != "" { EscapingGrows(value[1..]); }
  }

  /** A program without arguments is shown bare exactly when it is made of letters, digits and the characters of
      `_+-./:=@`, and is not empty; otherwise it is quoted. */
  lemma BareIffPlain(program: string)
    ensures RenderCommand(program, []) == program <==>
            program != "" && forall c :: c in program ==>
              'a' <= c <= 'z' || 'A' <= c <= 'Z' || '0' <= c <= '9' || c in ['_', '+', '-', '.', '/', ':', '=', '@']
  {
    EscapingGrows(program);
    assert [program] + [] == [program];
    assert forall c :: IsPlain(c) <==>
      'a' <= c <= 'z' || 'A' <= c <= 'Z' || '0' <= c <= '9' || c in ['_', '+', '-', '.', '/', ':', '=', '@'];
    hide IsPlain;
  }
}
