/** Ruby's `Shellwords.escape`, which the provisioner uses to pass whole
    documents (solo.rb, solo.json) to `echo` on the remote host, and the
    POSIX shell's reading of one word, to state what the escape guarantees. */
module Shell {

  /** Characters `Shellwords.escape` leaves alone: `[A-Za-z0-9_\-.,:+\/@\n]`. */
  predicate Safe(c: char) {
    ('A' <= c <= 'Z') || ('a' <= c <= 'z') || ('0' <= c <= '9') ||
    c in {'_', '-', '.', ',', ':', '+', '/', '@', '\n'}
  }

  /** One character: a newline becomes `'\n'` (a quoted newline), any other
      unsafe character gets a backslash, safe characters stay. */
  function EscapeChar(c: char): string {
    if c == '\n' then "'\n'"
    else if Safe(c) then [c]
    else ['\\', c]
  }

  function EscapeChars(s: string): string {
    if s == [] then [] else EscapeChar(s[0]) + EscapeChars(s[1..])
  }

  /** `Shellwords.escape(s)`: an empty string becomes `''`. */
  function Escape(s: string): string {
    if s == [] then "''" else EscapeChars(s)
  }

  /** Number of leading characters of `w` that are not a single quote. */
  function QuotedRun(w: string): (n: nat)
    ensures n <= |w|
    ensures forall k | 0 <= k < n :: w[k] != '\''
    ensures n < |w| ==> w[n] == '\''
  {
    if w == [] || w[0] == '\'' then 0 else 1 + QuotedRun(w[1..])
  }

  /** How a POSIX shell reads one word without blanks: a backslash quotes the
      next character, single quotes quote everything up to the next single
      quote, anything else stands for itself. */
  function ShellRead(w: string): string
    decreases |w|
  {
    if w == [] then []
    else if w[0] == '\\' && |w| >= 2 then [w[1]] + ShellRead(w[2..])
    else if w[0] == '\'' then
      var n := QuotedRun(w[1..]);
      if 1 + n < |w| then w[1..1 + n] + ShellRead(w[2 + n..]) else w[1..]
    else [w[0]] + ShellRead(w[1..])
  }

  lemma ReadEscapeChar(c: char, rest: string)
    ensures ShellRead(EscapeChar(c) + rest) == [c] + ShellRead(rest)
  {
    var w := EscapeChar(c) + rest;
    if c == '\n' {
      assert w[1..] == "\n'" + rest;
      assert QuotedRun(w[1..]) == 1;
      assert w[1..2] == "\n" && w[3..] == rest;
    } else if Safe(c) {
      assert w[1..] == rest;
    } else {
      assert w[2..] == rest;
    }
  }

  lemma {:induction false} ReadEscapeChars(s: string)
    ensures ShellRead(EscapeChars(s)) == s
  {
    if s != [] {
      ReadEscapeChar(s[0], EscapeChars(s[1..]));
      ReadEscapeChars(s[1..]);
      assert s == [s[0]] + s[1..];
    }
  }

  /** The escaped word reads back as exactly the original text, whatever it holds. */
  lemma EscapeRoundTrip(s: string)
    ensures ShellRead(Escape(s)) == s
  {
    if s == [] {
      assert QuotedRun("'") == 0;
    } else {
      ReadEscapeChars(s);
    }
  }

  /** Escaping adds only backslashes, single quotes and newlines, so any other
      character is in the escaped word only if it was in the text. */
  lemma {:induction false} EscapeCharsAdds(s: string, c: char)
    requires c !in s && c != '\\' && c != '\'' && c != '\n'
    ensures c !in EscapeChars(s)
  {
    if s != [] {
      EscapeCharsAdds(s[1..], c);
    }
  }

  lemma EscapeAdds(s: string, c: char)
    requires c !in s && c != '\\' && c != '\'' && c != '\n'
    ensures c !in Escape(s)
  {
    if s != [] {
      EscapeCharsAdds(s, c);
    }
  }
}
