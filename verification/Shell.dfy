/** Shell words (shell.rs): the one way a value becomes part of a shell command. */
module Shell {
  import opened Text

  /** GNU bash's builtins and reserved words. */
  function Builtins(): seq<string> {
    [
      ".", ":", "[", "alias", "bg", "bind", "break", "builtin", "caller", "cd", "command", "compgen", "complete",
      "compopt", "continue", "declare", "dirs", "disown", "echo", "enable", "eval", "exec", "exit", "export",
      "false", "fc", "fg", "getopts", "hash", "help", "history", "jobs", "kill", "let", "local", "logout",
      "mapfile", "popd", "printf", "pushd", "pwd", "read", "readarray", "readonly", "return", "set", "shift",
      "shopt", "source", "suspend", "test", "times", "trap", "true", "type", "typeset", "ulimit", "umask",
      "unalias", "unset", "wait", "if", "then", "else", "elif", "fi", "case", "esac", "for", "select", "while",
      "until", "do", "done", "in", "function", "time", "{", "}", "!", "[[", "]]", "coproc"
    ]
  }

  predicate IsAlpha(c: char) { 'a' <= c <= 'z' || 'A' <= c <= 'Z' }

  /** `NAME=value` as bash reads an assignment prefix. */
  predicate IsAssignment(word: string) {
    '=' in word
    && var name := Split(word, '=')[0];
       name != [] && (IsAlpha(name[0]) || name[0] == '_')
       && forall c | c in name :: IsAlpha(c) || '0' <= c <= '9' || c == '_'
  }

  /** A command word bash would not look up as a program: a builtin, a reserved word, an assignment. */
  predicate NamesShellSyntax(word: string) { '/' !in word && (word in Builtins() || IsAssignment(word)) }

  /** A shell variable's name. */
  predicate Identifier(name: string) {
    name != [] && !('0' <= name[0] <= '9') && forall c | c in name :: IsAlpha(c) || '0' <= c <= '9' || c == '_'
  }

  /** Bash takes a first word for itself exactly when it names no file and is one of its own words, or sets a
      variable. */
  lemma SyntaxExact(word: string)
    ensures NamesShellSyntax(word) <==>
              '/' !in word
              && (word in Builtins() || exists k | 0 <= k < |word| :: word[k] == '=' && Identifier(word[..k]))
  {
    hide Builtins;
    if '=' in word {
      var k :| 0 <= k < |word| && word[k] == '=' && '=' !in word[..k] by { FirstEquals(word); }
      assert word == word[..k] + ['='] + word[k + 1..];
      SplitFirst(word[..k], '=', word[k + 1..]);
      NameIs(word[..k]);
      forall j | 0 <= j < |word| && word[j] == '=' && Identifier(word[..j]) ensures j == k { OnlyEquals(word, j, k); }
    }
  }

  lemma OnlyEquals(word: string, j: nat, k: nat)
    requires j < |word| && k < |word| && word[j] == word[k] == '=' && '=' !in word[..j] && '=' !in word[..k]
    ensures j == k
  {
  }

  lemma NameIs(name: string)
    ensures Identifier(name) <==>
              name != [] && (IsAlpha(name[0]) || name[0] == '_')
              && forall c | c in name :: IsAlpha(c) || '0' <= c <= '9' || c == '_'
  {
    if name != [] { assert name[0] in name; }
  }

  lemma {:induction false} FirstEquals(word: string)
    requires '=' in word
    ensures exists k | 0 <= k < |word| :: word[k] == '=' && '=' !in word[..k]
  {
    if word[0] == '=' {
      assert word[..0] == [];
    } else {
      FirstEquals(word[1..]);
      var k :| 0 <= k < |word[1..]| && word[1..][k] == '=' && '=' !in word[1..][..k];
      assert word[..k + 1] == [word[0]] + word[1..][..k];
    }
  }

  // ----------------------------------------------------------------- quoting

  predicate IsAscii(w: string) { forall c | c in w :: c as int < 0x80 }

  predicate HasControl(w: string) { exists c | c in w :: c as int < 0x20 || c as int == 0x7f }

  function Special(): string { " !\"$&'()*,;<>?[\\]^`{|}" }

  predicate Escaped(c: char, prev: Option<char>) {
    c in Special() || (c == '#' && prev.None?) || (c == '~' && (prev.None? || prev == Some('=') || prev == Some(':')))
  }

  function Piece(c: char, prev: Option<char>): string { if Escaped(c, prev) then ['\\', c] else [c] }

  /** A backslash before each character bash would act on. */
  function Backslashed(w: string, prev: Option<char>): string {
    if w == [] then [] else Piece(w[0], prev) + Backslashed(w[1..], Some(w[0]))
  }

  lemma NextChar(w: string, i: nat, prev: Option<char>)
    requires i < |w|
    ensures Backslashed(w[i..], prev) == Piece(w[i], prev) + Backslashed(w[i + 1..], Some(w[i]))
  {
    hide Piece;
    assert w[i..][1..] == w[i + 1..];
  }

  lemma NoChars(w: string)
    ensures w[0..] == w && forall prev :: Backslashed(w[|w|..], prev) == []
  {
  }

  function Octal(d: nat): char
    requires d < 8
  {
    ('0' as int + d) as char
  }

  function AnsiChar(c: char): string {
    var b := c as int;
    if b == 0x07 then ['\\', 'a']
    else if b == 0x08 then ['\\', 'b']
    else if b == 0x09 then ['\\', 't']
    else if b == 0x0a then ['\\', 'n']
    else if b == 0x0b then ['\\', 'v']
    else if b == 0x0c then ['\\', 'f']
    else if b == 0x0d then ['\\', 'r']
    else if b == 0x1b then ['\\', 'E']
    else if c == '\\' then ['\\', '\\']
    else if c == '\'' then ['\\', '\'']
    else if 0x20 <= b <= 0x7e then [c]
    else ['\\', Octal(b / 64 % 8), Octal(b / 8 % 8), Octal(b % 8)]
  }

  function AnsiBody(w: string): string {
    if w == [] then [] else AnsiChar(w[0]) + AnsiBody(w[1..])
  }

  /** Everything literal, `'` written as `'\''`. */
  function SingleBody(w: string): string {
    if w == [] then [] else (if w[0] == '\'' then ['\'', '\\', '\'', '\''] else [w[0]]) + SingleBody(w[1..])
  }

  function QuoteWord(w: string): string {
    if w == [] then ['\'', '\'']
    else if !IsAscii(w) then ['\''] + SingleBody(w) + ['\'']
    else if HasControl(w) then ['$', '\''] + AnsiBody(w) + ['\'']
    else Backslashed(w, None)
  }

  function QuoteArgv(argv: seq<string>): string {
    if argv == [] then []
    else if |argv| == 1 then QuoteWord(argv[0])
    else QuoteWord(argv[0]) + [' '] + QuoteArgv(argv[1..])
  }

  /** `quote_word`, pushing character by character. */
  method Quote(w: string) returns (out: string)
    ensures out == QuoteWord(w)
  {
    hide Escaped, IsAscii, HasControl, SingleBody, AnsiBody, Backslashed;
    assert w[0..] == w && Backslashed(w[|w|..], if w == [] then None else Some(w[|w| - 1])) == [] by { NoChars(w); }
    if w == [] { return ['\'', '\'']; }
    if !IsAscii(w) { return ['\''] + SingleBody(w) + ['\'']; }
    if HasControl(w) {
      out := AnsiQuote(w);
      return;
    }
    out := [];
    var prev := None;
    for i := 0 to |w|
      invariant out + Backslashed(w[i..], prev) == Backslashed(w, None)
      invariant prev == if i == 0 then None else Some(w[i - 1])
    {
      NextChar(w, i, prev);
      ghost var was := out;
      if Escaped(w[i], prev) { out := out + ['\\']; }
      out := out + [w[i]];
      assert out == was + Piece(w[i], prev);
      prev := Some(w[i]);
    }
  }

  /** `ansi_c_quote`. */
  method AnsiQuote(w: string) returns (out: string)
    ensures out == ['$', '\''] + AnsiBody(w) + ['\'']
  {
    hide AnsiChar;
    out := ['$', '\''];
    for i := 0 to |w|
      invariant out + AnsiBody(w[i..]) == ['$', '\''] + AnsiBody(w)
    {
      assert w[i..][1..] == w[i + 1..];
      out := out + AnsiChar(w[i]);
    }
    out := out + ['\''];
  }

  // ------------------------------------------------------- reading it back, simply

  /** The words between runs of spaces and tabs. */
  function Blank(s: string, cur: string): seq<string> {
    if s == [] then (if cur == [] then [] else [cur])
    else if s[0] == ' ' || s[0] == '\t' then (if cur == [] then [] else [cur]) + Blank(s[1..], [])
    else Blank(s[1..], cur + [s[0]])
  }

  function FirstLine(s: string): string { Split(s, '\n')[0] }

  /** The quote the reader is inside, if any. */
  function Stored(s: string, quote: Option<char>, cur: string, started: bool): seq<string>
    decreases |s|
  {
    if s == [] then (if started then [cur] else [])
    else
      var (c, t) := (s[0], s[1..]);
      if quote.Some? then
        if c == quote.value then Stored(t, None, cur, true)
        else if quote == Some('"') && c == '\\' && t != [] then Stored(t[1..], quote, cur + [t[0]], true)
        else Stored(t, quote, cur + [c], true)
      else if c == '\\' then (if t == [] then Stored(t, None, cur, true) else Stored(t[1..], None, cur + [t[0]], true))
      else if c == '\'' || c == '"' then Stored(t, Some(c), cur, true)
      else if c == ' ' || c == '\t' then
        if started then [cur] + Stored(t, None, [], false) else Stored(t, None, cur, false)
      else Stored(t, None, cur + [c], true)
  }

  /** `split_stored`. */
  function SplitStored(s: string): seq<string> {
    if '\\' !in s && '\'' !in s && '"' !in s then Blank(FirstLine(s), []) else Stored(s, None, [], false)
  }

  /** `split_stored`'s loop. */
  method ReadStored(s: string) returns (out: seq<string>)
    ensures out == Stored(s, None, [], false)
  {
    out := [];
    var cur: string := [];
    var quote: Option<char> := None;
    var started := false;
    var it := s;
    while it != []
      invariant out + Stored(it, quote, cur, started) == Stored(s, None, [], false)
      decreases |it|
    {
      var c := it[0];
      it := it[1..];
      if quote.Some? {
        if c == quote.value {
          quote := None;
        } else if quote == Some('"') && c == '\\' && it != [] {
          cur := cur + [it[0]];
          it := it[1..];
        } else {
          cur := cur + [c];
        }
        started := true;
      } else if c == '\\' {
        if it != [] {
          cur := cur + [it[0]];
          it := it[1..];
        }
        started := true;
      } else if c == '\'' || c == '"' {
        quote := Some(c);
        started := true;
      } else if c == ' ' || c == '\t' {
        if started {
          out := out + [cur];
          cur := [];
          started := false;
        }
      } else {
        cur := cur + [c];
        started := true;
      }
    }
    if started { out := out + [cur]; }
  }
}
