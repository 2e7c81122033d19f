/** `travis:roles convert`: legacy YAML role files turned into Chef roles,
    either as Ruby role files or as JSON role documents. Reading the YAML
    and `PP.pp` of the attributes are functions given to the converter; a
    JSON role file is recorded as its role document, not as the text
    `JSON.pretty_generate` makes of it. The files the conversion creates
    and the formatting command it runs are recorded in order. */
module RoleConversion {
  import opened Wrappers
  import opened Strings
  import opened Values
  import Chef

  /** The loaded YAML of one legacy role file: its `json` attributes (absent
      in some files) and its `recipes`. */
  datatype RoleData = RoleData(json: Option<Hash>, recipes: seq<string>)

  /** `--format`, which Thor restricts to `ruby` and `json`. */
  datatype Format = Ruby | Json

  /** A file `create_file` writes: Ruby source text, or a role document
      (a map, so the key order and layout of the pretty-printed text are
      not kept). */
  datatype Created = RubyFile(path: string, text: string) | JsonFile(path: string, role: Hash)

  // ---------------------------------------------------------------- names

  /** `File.basename(path)`: what follows the last `/`. */
  function BaseName(path: string): (r: string)
    ensures '/' !in r
    ensures |r| <= |path| && r == path[|path| - |r|..]
    ensures |r| < |path| ==> path[|path| - |r| - 1] == '/'
  {
    if path == [] then []
    else if path[|path| - 1] == '/' then []
    else BaseName(path[..|path| - 1]) + [path[|path| - 1]]
  }

  /** The number of dots a name starts with (`File.extname` skips them). */
  function LeadingDots(s: string): (n: nat)
    ensures n <= |s|
    ensures forall k | 0 <= k < n :: s[k] == '.'
    ensures n == |s| || s[n] != '.'
  {
    if s == [] || s[0] != '.' then 0 else 1 + LeadingDots(s[1..])
  }

  /** The index of the last `c` in `s`, if any. */
  function LastIndexOf(s: string, c: char): (r: Option<nat>)
    ensures r.None? <==> c !in s
    ensures r.Some? ==> r.value < |s| && s[r.value] == c
                        && forall k | r.value < k < |s| :: s[k] != c
  {
    if s == [] then None
    else if s[|s| - 1] == c then Some(|s| - 1)
    else
      var r := LastIndexOf(s[..|s| - 1], c);
      assert forall k | 0 <= k < |s| - 1 :: s[..|s| - 1][k] == s[k];
      r
  }

  /** `File.basename(base, File.extname(base))` of a base name: without the
      extension, which runs from the last dot that is not one of the
      leading dots. */
  function Stem(base: string): (r: string)
    ensures r <= base
    ensures '.' !in base ==> r == base
  {
    match LastIndexOf(base, '.')
    case Some(e) => if e > LeadingDots(base) then base[..e] else base
    case None => base
  }

  /** `tr('.', '_')`. */
  function DotsToUnderscores(s: string): (r: string)
    ensures |r| == |s|
    ensures forall k | 0 <= k < |s| :: r[k] == if s[k] == '.' then '_' else s[k]
  {
    seq(|s|, k requires 0 <= k < |s| => if s[k] == '.' then '_' else s[k])
  }

  /** `tr('-', '')`. */
  function DeleteDashes(s: string): (r: string)
    ensures '-' !in r
    ensures '-' !in s ==> r == s
  {
    if s == [] then []
    else if s[0] == '-' then DeleteDashes(s[1..]) else [s[0]] + DeleteDashes(s[1..])
  }

  /** `tr('-', '')` keeps every other character, as often as it occurs. */
  lemma {:induction false} DeleteDashesMultiset(s: string)
    ensures multiset(DeleteDashes(s)) == multiset(s)['-' := 0]
  {
    if s != [] {
      DeleteDashesMultiset(s[1..]);
      assert s == [s[0]] + s[1..];
    }
  }

  /** `tr('-', '')` of a concatenation. */
  lemma {:induction false} DeleteDashesConcat(a: string, b: string)
    ensures DeleteDashes(a + b) == DeleteDashes(a) + DeleteDashes(b)
  {
    if a == [] {
      assert a + b == b;
    } else {
      assert (a + b)[1..] == a[1..] + b && (a + b)[0] == a[0];
      DeleteDashesConcat(a[1..], b);
    }
  }

  /** The role name of a legacy role file. */
  function RoleName(file: string): string {
    DeleteDashes(DotsToUnderscores(Stem(BaseName(file))))
  }

  /** A role name has no dots, no dashes and no slashes, and every other
      character of the file's stem is kept. */
  lemma RoleNameClean(file: string)
    ensures '.' !in RoleName(file) && '-' !in RoleName(file) && '/' !in RoleName(file)
    ensures forall c | c != '_' && c != '.' && c != '-' ::
      multiset(RoleName(file))[c] == multiset(Stem(BaseName(file)))[c]
  {
    var base := BaseName(file);
    var stem := Stem(base);
    var t := DotsToUnderscores(stem);
    var r := RoleName(file);
    DeleteDashesMultiset(t);
    assert multiset(r) == multiset(t)['-' := 0];
    assert '.' !in t by {
      forall k | 0 <= k < |t|
        ensures t[k] != '.'
      {
      }
    }
    assert multiset(r)['.'] == 0;
    assert '/' !in stem by {
      forall k | 0 <= k < |stem|
        ensures stem[k] != '/'
      {
        assert stem[k] == base[k];
      }
    }
    DotsMultiset(stem, '/');
    assert multiset(r)['/'] == 0;
    forall c | c != '_' && c != '.' && c != '-'
      ensures multiset(r)[c] == multiset(stem)[c]
    {
      DotsMultiset(stem, c);
    }
  }

  /** `tr('.', '_')` keeps the count of every character but the two. */
  lemma {:induction false} DotsMultiset(s: string, c: char)
    requires c != '_' && c != '.'
    ensures multiset(DotsToUnderscores(s))[c] == multiset(s)[c]
  {
    if s != [] {
      DotsMultiset(s[1..], c);
      assert DotsToUnderscores(s) == [DotsToUnderscores(s)[0]] + DotsToUnderscores(s[1..]);
      assert s == [s[0]] + s[1..];
    }
  }

  /** A role name is its own role name: converting a converted name again
      changes nothing. */
  lemma RoleNameIdempotent(file: string)
    ensures RoleName(RoleName(file)) == RoleName(file)
  {
    var n := RoleName(file);
    RoleNameClean(file);
    NoSlashBaseName(n);
    assert DotsToUnderscores(n) == n;
  }

  /** A name without a slash is its own base name. */
  lemma {:induction false} NoSlashBaseName(s: string)
    requires '/' !in s
    ensures BaseName(s) == s
  {
    if s != [] {
      NoSlashBaseName(s[..|s| - 1]);
      assert s == s[..|s| - 1] + [s[|s| - 1]];
    }
  }

  /** The last `c` of `x + [c] + e`, when `e` has none, is the one after `x`. */
  lemma {:induction false} LastIndexOfAfter(x: string, c: char, e: string)
    requires c !in e
    ensures LastIndexOf(x + [c] + e, c) == Some(|x|)
  {
    if e != [] {
      var e' := e[..|e| - 1];
      LastIndexOfAfter(x, c, e');
      assert (x + [c] + e)[..|x + [c] + e| - 1] == x + [c] + e';
    }
  }

  /** `tr('.', '_')` leaves a dot-free name alone. */
  lemma NoDots(s: string)
    requires '.' !in s
    ensures DotsToUnderscores(s) == s
  {
    assert forall k | 0 <= k < |s| :: s[k] != '.';
  }

  /** `tr('.', '_')` of a concatenation. */
  lemma DotsConcat(a: string, b: string)
    ensures DotsToUnderscores(a + b) == DotsToUnderscores(a) + DotsToUnderscores(b)
  {
    var l := DotsToUnderscores(a + b);
    var r := DotsToUnderscores(a) + DotsToUnderscores(b);
    forall k | 0 <= k < |l|
      ensures l[k] == r[k]
    {
      if k >= |a| {
        assert (a + b)[k] == b[k - |a|];
      }
    }
  }

  /** The extension goes, and only the extension: the role name of
      `stem` followed by an extension `.ext` is made from `stem` alone. */
  lemma RoleNameDropsExtension(stem: string, ext: string)
    requires ext != [] && ext[0] == '.' && '.' !in ext[1..]
    requires '/' !in stem && '/' !in ext
    requires stem != [] && stem[0] != '.'
    ensures RoleName(stem + ext) == DeleteDashes(DotsToUnderscores(stem))
  {
    var file := stem + ext;
    assert '/' !in file by {
      assert forall k | 0 <= k < |file| :: file[k] == if k < |stem| then stem[k] else ext[k - |stem|];
    }
    NoSlashBaseName(file);
    assert ext == ['.'] + ext[1..];
    assert file == stem + ['.'] + ext[1..];
    LastIndexOfAfter(stem, '.', ext[1..]);
    assert file[0] == stem[0];
    assert LeadingDots(file) == 0;
    assert file[..|stem|] == stem;
    assert Stem(BaseName(file)) == stem;
  }

  /** The example of the source's own comment, `worker.node-js.yml`, with
      any dot-free parts in place of `worker`, `node` and `js`. */
  lemma RoleNameExample(a: string, b: string, c: string)
    requires a != [] && a[0] != '.'
    requires '.' !in b && '.' !in c && '-' !in a && '-' !in b && '-' !in c
    requires '/' !in a && '/' !in b && '/' !in c
    ensures RoleName(a + "." + b + "-" + c + ".yml") == DotsToUnderscores(a) + "_" + b + c
  {
    var stem := a + "." + b + "-" + c;
    assert stem[0] == a[0];
    assert '/' !in stem;
    assert ".yml"[1..] == "yml";
    RoleNameDropsExtension(stem, ".yml");
    DotsConcat(a + "." + b + "-", c);
    DotsConcat(a + "." + b, "-");
    DotsConcat(a + ".", b);
    DotsConcat(a, ".");
    NoDots(b);
    NoDots(c);
    assert DotsToUnderscores(".") == "_" && DotsToUnderscores("-") == "-";
    var a' := DotsToUnderscores(a);
    assert DotsToUnderscores(stem) == a' + "_" + b + "-" + c;
    DeleteDashesAround(a' + "_" + b, c);
  }

  /** Deleting a dash between two dash-free names joins them. */
  lemma {:induction false} DeleteDashesAround(a: string, b: string)
    requires '-' !in a && '-' !in b
    ensures DeleteDashes(a + ['-'] + b) == a + b
  {
    if a == [] {
      assert ([] + ['-'] + b)[1..] == b;
    } else {
      assert (a + ['-'] + b)[1..] == a[1..] + ['-'] + b;
      DeleteDashesAround(a[1..], b);
      assert a == [a[0]] + a[1..];
    }
  }

  // ------------------------------------------------------------ JSON roles

  /** `"Auto-generated role for #{name}"`. */
  function RoleDescription(name: string): string {
    "Auto-generated role for " + name
  }

  /** The `run_list` of a JSON role. */
  function RunListValue(recipes: seq<string>): (v: Value)
    ensures v.List? && |v.items| == |recipes|
    ensures forall i | 0 <= i < |recipes| :: v.items[i] == Str(Chef.RunListItem(recipes[i]))
  {
    var items := Chef.RunList(recipes);
    List(seq(|items|, i requires 0 <= i < |items| => Str(items[i])))
  }

  /** `role_data` as `convert_to_json` fills it. */
  function JsonRole(name: string, data: RoleData): (role: Hash)
    ensures role.Keys == {"name", "description", "chef_type", "json_class", "default_attributes", "run_list"}
  {
    map[
      "name" := Str(name),
      "description" := Str(RoleDescription(name)),
      "chef_type" := Str("role"),
      "json_class" := Str("Chef::Role"),
      "default_attributes" := (match data.json case Some(h) => Object(h) case None => Null),
      "run_list" := RunListValue(data.recipes)]
  }

  /** The recipes a role document's run list names, when it is a list of
      strings. */
  function RoleRecipes(role: Hash): Option<seq<string>> {
    if "run_list" in role && role["run_list"].List? then
      var items := role["run_list"].items;
      if forall i | 0 <= i < |items| :: items[i].Str? then
        Some(seq(|items|, i requires 0 <= i < |items| => Chef.RecipeOf(items[i].s)))
      else None
    else None
  }

  /** Reading a converted JSON role back gives the role name, its
      attributes (null for a file without any) and its recipes, in order. */
  lemma JsonRoleRoundTrip(name: string, data: RoleData)
    ensures JsonRole(name, data)["name"] == Str(name)
    ensures JsonRole(name, data)["description"] == Str("Auto-generated role for " + name)
    ensures JsonRole(name, data)["chef_type"] == Str("role")
    ensures JsonRole(name, data)["json_class"] == Str("Chef::Role")
    ensures JsonRole(name, data)["default_attributes"] == (if data.json.Some? then Object(data.json.value) else Null)
    ensures RoleRecipes(JsonRole(name, data)) == Some(data.recipes)
  {
    var role := JsonRole(name, data);
    var items := role["run_list"].items;
    Chef.RunListRoundTrip(data.recipes);
    var read := seq(|items|, i requires 0 <= i < |items| => Chef.RecipeOf(items[i].s));
    assert forall i | 0 <= i < |items| :: items[i].s == Chef.RunList(data.recipes)[i];
    assert read == data.recipes;
  }

  // ------------------------------------------------------------ Ruby roles

  /** A character `String#inspect` writes as itself: anything but the
      ASCII control characters and DEL. */
  predicate Printable(c: char) {
    !(c as int < 32 || c as int == 127)
  }

  /** The upper-case hexadecimal digit of a value below 16. */
  function HexDigit(n: nat): (d: char)
    requires n < 16
    ensures '0' <= d <= '9' || 'A' <= d <= 'F'
    ensures HexValue(d) == n
  {
    if n < 10 then ('0' as int + n) as char else ('A' as int + n - 10) as char
  }

  /** The value of a hexadecimal digit, either case; -1 for anything else. */
  function HexValue(d: char): int {
    if '0' <= d <= '9' then d as int - '0' as int
    else if 'A' <= d <= 'F' then d as int - 'A' as int + 10
    else if 'a' <= d <= 'f' then d as int - 'a' as int + 10
    else -1
  }

  /** The one-letter escape `inspect` uses for a control character, or
      none: `\n`, `\r`, `\t`, `\f`, `\v`, `\b`, `\a` and `\e`. */
  function ControlLetter(c: char): Option<char> {
    if c == '\n' then Some('n')
    else if c == '\r' then Some('r')
    else if c == '\t' then Some('t')
    else if c as int == 12 then Some('f')
    else if c as int == 11 then Some('v')
    else if c as int == 8 then Some('b')
    else if c as int == 7 then Some('a')
    else if c as int == 27 then Some('e')
    else None
  }

  /** The escape of one character in `String#inspect`, given the character
      after it: quotes and backslashes are backslashed, `#` is backslashed
      before `{`, `$` or `@`, control characters with a letter escape use
      it, and the other control characters and DEL are written `\u00XX`. */
  function EscapeChar(c: char, next: Option<char>): (r: string)
    ensures r == [c] <==> Printable(c) && c != '"' && c != '\\'
                          && !(c == '#' && next.Some? && next.value in "{$@")
    ensures r != [c] ==> |r| >= 2 && r[0] == '\\'
    ensures '\n' !in r
  {
    if c == '"' || c == '\\' then ['\\', c]
    else if c == '#' && next.Some? && next.value in "{$@" then ['\\', '#']
    else if ControlLetter(c).Some? then ['\\', ControlLetter(c).value]
    else if Printable(c) then [c]
    else ['\\', 'u', '0', '0', HexDigit(c as int / 16), HexDigit(c as int % 16)]
  }

  /** The body of `s.inspect`. */
  function Escape(s: string): (r: string)
    ensures '\n' !in r
  {
    if s == [] then []
    else EscapeChar(s[0], if |s| > 1 then Some(s[1]) else None) + Escape(s[1..])
  }

  /** `s.inspect`: the escaped string in double quotes. */
  function Inspect(s: string): (r: string)
    ensures '\n' !in r
  {
    "\"" + Escape(s) + "\""
  }

  /** The character a one-letter escape stands for in a double-quoted Ruby
      literal; any other letter stands for itself. */
  function LetterChar(l: char): char {
    if l == 'n' then '\n'
    else if l == 'r' then '\r'
    else if l == 't' then '\t'
    else if l == 'f' then 12 as char
    else if l == 'v' then 11 as char
    else if l == 'b' then 8 as char
    else if l == 'a' then 7 as char
    else if l == 'e' then 27 as char
    else l
  }

  /** The value of the four hexadecimal digits after `\u`, or -1. */
  function HexQuad(t: string): int
    requires |t| == 4
  {
    if HexValue(t[0]) < 0 || HexValue(t[1]) < 0 || HexValue(t[2]) < 0 || HexValue(t[3]) < 0 then -1
    else HexValue(t[0]) * 4096 + HexValue(t[1]) * 256 + HexValue(t[2]) * 16 + HexValue(t[3])
  }

  /** Reading an escaped body back, as Ruby reads a double-quoted literal
      (only the escapes `Escape` writes: letters, `\u` with four digits
      naming a character below the surrogates, and backslashed
      punctuation). */
  function Unescape(t: string): string {
    if t == [] then []
    else if t[0] == '\\' && |t| >= 6 && t[1] == 'u' && 0 <= HexQuad(t[2..6]) < 0xD800 then
      [HexQuad(t[2..6]) as char] + Unescape(t[6..])
    else if t[0] == '\\' && |t| > 1 then
      [LetterChar(t[1])] + Unescape(t[2..])
    else [t[0]] + Unescape(t[1..])
  }

  /** One escaped character, whatever follows it, reads back as itself. */
  lemma UnescapeChar(c: char, next: Option<char>, rest: string)
    ensures Unescape(EscapeChar(c, next) + rest) == [c] + Unescape(rest)
  {
    var e := EscapeChar(c, next);
    if |e| == 6 {
      var n := c as int;
      assert (e + rest)[2..6] == e[2..6];
      assert HexQuad(e[2..6]) == n / 16 * 16 + n % 16;
      assert (e + rest)[6..] == rest;
    } else if |e| == 2 {
      assert (e + rest)[2..] == rest;
    } else {
      assert (e + rest)[1..] == rest;
    }
  }

  /** The inspected recipe entry reads back as the entry: nothing is lost
      or altered by the quoting. */
  lemma {:induction false} EscapeRoundTrip(s: string)
    ensures Unescape(Escape(s)) == s
  {
    if s != [] {
      EscapeRoundTrip(s[1..]);
      UnescapeChar(s[0], if |s| > 1 then Some(s[1]) else None, Escape(s[1..]));
    }
  }

  /** The quoted entries of the Ruby run list. */
  function QuotedRunList(recipes: seq<string>): (r: seq<string>)
    ensures |r| == |recipes|
    ensures forall i | 0 <= i < |recipes| :: r[i] == Inspect(Chef.RunListItem(recipes[i]))
  {
    seq(|recipes|, i requires 0 <= i < |recipes| => Inspect(Chef.RunListItem(recipes[i])))
  }

  /** The argument of `run_list(...)`. */
  function RubyRunList(recipes: seq<string>): string {
    Join(QuotedRunList(recipes), ",\n")
  }

  /** The number of newlines in a text. */
  function Newlines(s: string): nat {
    multiset(s)['\n']
  }

  /** One recipe per line: the run list spans exactly one line per recipe,
      because a quoted entry never holds a newline of its own. */
  lemma RubyRunListLines(recipes: seq<string>)
    requires recipes != []
    ensures Newlines(RubyRunList(recipes)) == |recipes| - 1
  {
    JoinNewlines(QuotedRunList(recipes));
  }

  lemma {:induction false} JoinNewlines(parts: seq<string>)
    requires parts != []
    requires forall i | 0 <= i < |parts| :: '\n' !in parts[i]
    ensures Newlines(Join(parts, ",\n")) == |parts| - 1
  {
    if |parts| == 1 {
      assert multiset(parts[0])['\n'] == 0;
    } else {
      JoinNewlines(parts[1..]);
      assert multiset(parts[0])['\n'] == 0;
      assert Join(parts, ",\n") == parts[0] + ",\n" + Join(parts[1..], ",\n");
    }
  }

  /** The attributes `convert_to_ruby` writes: missing ones count as none. */
  function Attributes(data: RoleData): Hash {
    data.json.GetOr(map[])
  }

  /** `puts`: the line and a newline unless it already ends in one. */
  function PutsLine(s: string): (r: string)
    ensures |s| > 0 && s[|s| - 1] == '\n' ==> r == s
    ensures !(|s| > 0 && s[|s| - 1] == '\n') ==> r == s + "\n"
  {
    if |s| > 0 && s[|s| - 1] == '\n' then s else s + "\n"
  }

  /** `puts` of a line ending in anything but a newline adds one. */
  lemma PutsLineClosed(s: string, c: char)
    requires c != '\n'
    ensures PutsLine(s + [c]) == Line(s + [c])
  {
    assert (s + [c])[|s + [c]| - 1] == c;
  }

  /** A line of text and its newline. */
  function Line(s: string): string {
    s + "\n"
  }

  /** The first two lines of a Ruby role. */
  function RubyHeader(name: string): string {
    Line("name '" + name + "'") + Line("description '" + RoleDescription(name) + "'")
  }

  /** The text of a Ruby role; `pp` is what `PP.pp` writes for the
      attributes. */
  function RubyRoleText(name: string, data: RoleData, pp: Hash -> string): string {
    RubyHeader(name) + AttributesPart(data, pp) + RunListLine(data.recipes)
  }

  /** The `default_attributes(...)` part, empty without attributes. */
  function AttributesPart(data: RoleData, pp: Hash -> string): string {
    if Attributes(data) == map[] then [] else "default_attributes(" + pp(Attributes(data)) + Line(")")
  }

  /** The last line of a Ruby role. */
  function RunListLine(recipes: seq<string>): string {
    Line("run_list(" + RubyRunList(recipes) + ")")
  }

  /** A Ruby role starts with its name line and its description line; the
      attributes follow exactly when there are any, and the run list comes
      last. */
  lemma RubyRoleShape(name: string, data: RoleData, pp: Hash -> string)
    ensures RubyHeader(name) <= RubyRoleText(name, data, pp)
    ensures (RubyHeader(name) + "default_attributes(" <= RubyRoleText(name, data, pp)) <==> Attributes(data) != map[]
    ensures data.json.None? ==> RubyRoleText(name, data, pp) == RubyHeader(name) + RunListLine(data.recipes)
  {
    var h := RubyHeader(name);
    var d := "default_attributes(";
    var r := RunListLine(data.recipes);
    var text := RubyRoleText(name, data, pp);
    if Attributes(data) == map[] {
      assert h + [] == h;
      assert text == h + r;
      assert r[0] == 'r' && d[0] == 'd';
      PrefixDiffers(h, r, d);
    } else {
      var rest := pp(Attributes(data)) + Line(")");
      AppendAssoc(d, pp(Attributes(data)), Line(")"));
      assert text == h + (d + rest) + r;
      AppendAssoc(h, d + rest, r);
      AppendAssoc(d, rest, r);
      AppendAssoc(h, d, rest + r);
      assert text == (h + d) + (rest + r);
      assert h <= h + d;
    }
  }

  /** Texts that part after a common prefix do not extend each other. */
  lemma PrefixDiffers(h: string, x: string, y: string)
    requires x != [] && y != [] && x[0] != y[0]
    ensures !(h + y <= h + x)
  {
    assert (h + x)[|h|] == x[0] && (h + y)[|h|] == y[0];
  }

  // ----------------------------------------------------------- conversion

  /** The entry `convert` records for each file: `"roles/#{@name}.rb"`
      with `@name` never set, so empty. */
  const UnsetTarget: string := "roles/" + "" + ".rb"

  /** The target list of `n` converted files. */
  function UnsetTargets(n: nat): (r: seq<string>)
    ensures |r| == n
  {
    if n == 0 then [] else UnsetTargets(n - 1) + [UnsetTarget]
  }

  /** Every entry of the target list is the same unset name. */
  lemma {:induction false} UnsetTargetsAll(n: nat)
    ensures forall t | t in UnsetTargets(n) :: t == UnsetTarget
  {
    if n > 0 {
      UnsetTargetsAll(n - 1);
    }
  }

  /** The file `convert_to_ruby` or `convert_to_json` creates for one
      legacy role file. */
  function CreatedFor(format: Format, data: RoleData, name: string, pp: Hash -> string): Created {
    match format
    case Ruby => RubyFile("roles/" + name + ".rb", RubyRoleText(name, data, pp))
    case Json => JsonFile("roles/" + name + ".json", JsonRole(name, data))
  }

  /** The files created for a list of legacy role files, in order. */
  function CreatedFiles(format: Format, load: string -> RoleData, files: seq<string>, pp: Hash -> string): (r: seq<Created>)
    ensures |r| == |files|
  {
    if files == [] then []
    else CreatedFiles(format, load, files[..|files| - 1], pp)
         + [CreatedFor(format, load(files[|files| - 1]), RoleName(files[|files| - 1]), pp)]
  }

  /** The `i`-th file created is the role of the `i`-th input file. */
  lemma {:induction false} CreatedFilesAt(format: Format, load: string -> RoleData, files: seq<string>, pp: Hash -> string, i: nat)
    requires i < |files|
    ensures CreatedFiles(format, load, files, pp)[i] == CreatedFor(format, load(files[i]), RoleName(files[i]), pp)
  {
    var init := files[..|files| - 1];
    var done := CreatedFiles(format, load, init, pp);
    assert CreatedFiles(format, load, files, pp) == done + [CreatedFor(format, load(files[|files| - 1]), RoleName(files[|files| - 1]), pp)];
    if i < |files| - 1 {
      CreatedFilesAt(format, load, init, pp, i);
      assert init[i] == files[i];
    }
  }

  /** One more file converted. */
  lemma CreatedFilesStep(format: Format, load: string -> RoleData, files: seq<string>, i: nat, pp: Hash -> string)
    requires i < |files|
    ensures CreatedFiles(format, load, files[..i + 1], pp)
         == CreatedFiles(format, load, files[..i], pp) + [CreatedFor(format, load(files[i]), RoleName(files[i]), pp)]
  {
    assert files[..i + 1][..i] == files[..i];
  }

  /** `bundle exec rubocop -a #{target_files.join ' '} 2>/dev/null`. */
  function RubocopCommand(targets: seq<string>): string {
    "bundle exec rubocop -a " + Join(targets, " ") + " 2>/dev/null"
  }

  /** The entry handed to the formatter names the created file only for a
      Ruby role whose name is empty: otherwise the formatter is pointed at
      `roles/.rb` and not at the role it should format. */
  lemma TargetIsCreatedOnlyWhenNameEmpty(format: Format, data: RoleData, name: string, pp: Hash -> string)
    ensures CreatedFor(format, data, name, pp).path == UnsetTarget <==> format == Ruby && name == ""
  {
    var p := CreatedFor(format, data, name, pp).path;
    if p == UnsetTarget {
      assert |p| == |UnsetTarget|;
    }
  }

  /** The conversion: created files and commands run, the YAML of each file
      and `PP.pp` given. */
  class Converter {
    const format: Format
    /** `YAML.load File.read(file)` for each file. */
    const load: string -> RoleData
    /** What `PP.pp` writes for a hash. */
    const pp: Hash -> string
    /** The files created so far, in order. */
    var created: seq<Created>
    /** The shell commands run so far, in order. */
    var commands: seq<string>

    constructor (format: Format, load: string -> RoleData, pp: Hash -> string)
      ensures this.format == format && this.load == load && this.pp == pp
      ensures created == [] && commands == []
    {
      this.format := format;
      this.load := load;
      this.pp := pp;
      created := [];
      commands := [];
    }

    /** `convert(*files)`: one role file created per input file, one target
        entry per input file, and the formatting command for the Ruby
        format. */
    method Convert(files: seq<string>) returns (targets: seq<string>)
      modifies this`created, this`commands
      ensures targets == UnsetTargets(|files|)
      ensures created == old(created) + CreatedFiles(format, load, files, pp)
      ensures commands == old(commands) + (if format == Ruby then [RubocopCommand(targets)] else [])
    {
      targets := ConvertEach(files);
      if format == Ruby {
        commands := commands + [RubocopCommand(targets)];
      }
    }

    /** The `files.each` loop of `convert`. */
    method ConvertEach(files: seq<string>) returns (targets: seq<string>)
      modifies this`created
      ensures targets == UnsetTargets(|files|)
      ensures created == old(created) + CreatedFiles(format, load, files, pp)
    {
      ghost var c0 := created;
      targets := [];
      var i := 0;
      while i < |files|
        invariant 0 <= i <= |files|
        invariant targets == UnsetTargets(i)
        invariant created == c0 + CreatedFiles(format, load, files[..i], pp)
      {
        ghost var done := CreatedFiles(format, load, files[..i], pp);
        ConvertFile(files[i]);
        ghost var one := CreatedFor(format, load(files[i]), RoleName(files[i]), pp);
        targets := targets + [UnsetTarget];
        CreatedFilesStep(format, load, files, i, pp);
        AppendAssoc(c0, done, [one]);
        i := i + 1;
      }
      assert files[..i] == files;
    }

    /** The body of the loop of `convert` for one file: load it, derive the
        role name and send it to the converter of the format. */
    method ConvertFile(file: string)
      modifies this`created
      ensures created == old(created) + [CreatedFor(format, load(file), RoleName(file), pp)]
    {
      var data := load(file);
      var name := RoleName(file);
      if format == Ruby {
        ConvertToRuby(data, name);
      } else {
        ConvertToJson(data, name);
      }
    }

    /** `convert_to_ruby(data, name)`: the role written line by line into a
        buffer. */
    method ConvertToRuby(data: RoleData, name: string)
      modifies this`created
      ensures created == old(created) + [CreatedFor(Ruby, data, name, pp)]
    {
      var attributes := data.json.GetOr(map[]);
      var runList := Join(QuotedRunList(data.recipes), ",\n");
      PutsLineClosed("name '" + name, '\'');
      var buffer := PutsLine("name '" + name + "'");
      PutsLineClosed("description '" + RoleDescription(name), '\'');
      buffer := buffer + PutsLine("description '" + RoleDescription(name) + "'");
      ghost var header := buffer;
      if attributes != map[] {
        buffer := buffer + "default_attributes(";
        buffer := buffer + pp(attributes);
        PutsLineClosed([], ')');
        buffer := buffer + PutsLine(")");
        AppendAssoc(header + "default_attributes(", pp(attributes), Line(")"));
        AppendAssoc(header, "default_attributes(", pp(attributes) + Line(")"));
        AppendAssoc("default_attributes(", pp(attributes), Line(")"));
      }
      assert buffer == RubyHeader(name) + AttributesPart(data, pp);
      PutsLineClosed("run_list(" + runList, ')');
      buffer := buffer + PutsLine("run_list(" + runList + ")");
      created := created + [RubyFile("roles/" + name + ".rb", buffer)];
    }

    /** `convert_to_json(data, name)`: the role document filled key by key. */
    method ConvertToJson(data: RoleData, name: string)
      modifies this`created
      ensures created == old(created) + [CreatedFor(Json, data, name, pp)]
    {
      var role: Hash := map[];
      role := role["name" := Str(name)];
      role := role["description" := Str("Auto-generated role for " + name)];
      role := role["chef_type" := Str("role")];
      role := role["json_class" := Str("Chef::Role")];
      role := role["default_attributes" := match data.json case Some(h) => Object(h) case None => Null];
      role := role["run_list" := RunListValue(data.recipes)];
      created := created + [JsonFile("roles/" + name + ".json", role)];
    }
  }
}
