/** The button-layout mini-language (`src/application/post/button_dsl.py`).
    Every non-blank line of the input is a row; every `[text + url + style]`
    on it is a button; the first fault anywhere aborts the whole parse.

    `Parse` is the specification: the first error, or the rows, of the
    non-blank lines taken in order.  `ParseButtonsDsl` is the parser itself,
    with the source's two nested loops, proved equal to it. */
module ButtonDsl {
  import opened Wrappers
  import opened PyStr
  import opened Domain

  datatype ParsedButton = ParsedButton(text: string, url: string, style: ButtonStyle)

  type Row = seq<ParsedButton>

  /** The faults `ButtonDslError` reports, told apart by their message. */
  datatype DslError =
    | NoButtonsFound
    | TooFewParts
    | EmptyButtonText
    | InvalidButtonUrl(buttonText: string)
    | UnknownButtonStyle(style: string)

  /** The text of the error, which the wizard sends back to the user. */
  function ErrorMessage(e: DslError): string {
    match e
    case NoButtonsFound => "Could not parse buttons. Example: [Text + https://url + green]"
    case TooFewParts => "Each button must have at least text and URL. Example: [Text + https://url]"
    case EmptyButtonText => "Button text cannot be empty."
    case InvalidButtonUrl(t) => "Invalid URL for button \"" + t + "\""
    case UnknownButtonStyle(s) => "Unknown color \"" + s + "\". Use: default, green, red."
  }

  // ---------------------------------------------------------------------
  // BUTTON_PATTERN = \[([^\]]+)\] with findall

  /** The groups `findall` returns, left to right: at a `[`, everything up to
      the next `]` when that is not empty; otherwise the scan moves on by one
      character. */
  function FindAll(s: string): (ms: seq<string>)
    ensures forall i :: 0 <= i < |ms| ==> ms[i] != [] && ']' !in ms[i]
    decreases |s|
  {
    if s == [] then []
    else if s[0] == '[' then
      match Find(s[1..], ']')
      case Some(j) =>
        if j >= 1 then
          assert s[1..][..j] == s[1..j + 1];
          [s[1..j + 1]] + FindAll(s[j + 2..])
        else FindAll(s[1..])
      case None => FindAll(s[1..])
    else FindAll(s[1..])
  }

  /** Every match is made of characters of `s`. */
  lemma {:induction false} FindAllChars(s: string)
    ensures forall i, c :: 0 <= i < |FindAll(s)| && c in FindAll(s)[i] ==> c in s
    decreases |s|
  {
    if s != [] {
      FindAllChars(s[1..]);
      assert forall c :: c in s[1..] ==> c in s;
      if s[0] == '[' && Find(s[1..], ']').Some? && Find(s[1..], ']').value >= 1 {
        var j := Find(s[1..], ']').value;
        FindAllChars(s[j + 2..]);
        assert forall c :: c in s[j + 2..] ==> c in s;
        assert forall c :: c in s[1..j + 1] ==> c in s;
      }
    }
  }

  /** Text with no `[` before a bracket is ignored. */
  lemma {:induction false} FindAllSkipsText(pre: string, s: string)
    requires '[' !in pre
    ensures FindAll(pre + s) == FindAll(s)
    decreases |pre|
  {
    if pre != [] {
      assert (pre + s)[0] == pre[0];
      assert (pre + s)[1..] == pre[1..] + s;
      FindAllSkipsText(pre[1..], s);
    } else {
      assert pre + s == s;
    }
  }

  /** A bracket pair around non-empty text without `]` is one match. */
  lemma FindAllBracket(m: string, rest: string)
    requires m != [] && ']' !in m
    ensures FindAll("[" + m + "]" + rest) == [m] + FindAll(rest)
  {
    var s := "[" + m + "]" + rest;
    assert s[1..] == m + "]" + rest;
    FindAfter(m, ']', rest);
    assert s[1..|m| + 1] == m;
    assert s[|m| + 2..] == rest;
  }

  /** `[]` is never a match. */
  lemma FindAllEmptyBrackets(rest: string)
    ensures FindAll("[]" + rest) == FindAll(rest)
  {
    var s := "[]" + rest;
    assert s[1..] == "]" + rest;
    assert Find(s[1..], ']') == Some(0);
    assert s[1..][1..] == rest;
  }

  // ---------------------------------------------------------------------
  // _validate_url: the part of urllib.parse.urlparse it depends on

  predicate IsSchemeChar(c: char) {
    IsAsciiLetter(c) || IsAsciiDigit(c) || c == '+' || c == '-' || c == '.'
  }

  /** Where the scheme ends: the first `:`, provided it is not the first
      character, the text before it starts with an ASCII letter and consists
      of scheme characters only. */
  function SchemeEnd(url: string): (r: Option<nat>)
    ensures r.Some? ==> 0 < r.value < |url| && url[r.value] == ':' && IsAsciiLetter(url[0])
    ensures r.Some? ==> forall k :: 0 <= k < r.value ==> IsSchemeChar(url[k])
  {
    var f := Find(url, ':');
    if f.Some? && f.value > 0 && IsAsciiLetter(url[0]) &&
       forall k :: 0 <= k < f.value ==> IsSchemeChar(url[k])
    then Some(f.value) else None
  }

  /** `urlparse(url).scheme` */
  function Scheme(url: string): string {
    var e := SchemeEnd(url);
    if e.Some? then Lower(url[..e.value]) else ""
  }

  /** What follows the scheme and its colon (all of `url` when there is no
      scheme). */
  function AfterScheme(url: string): string {
    var e := SchemeEnd(url);
    if e.Some? then url[e.value + 1..] else url
  }

  predicate IsNetlocDelimiter(c: char) {
    c == '/' || c == '?' || c == '#'
  }

  function NetlocLength(s: string): (n: nat)
    ensures n <= |s| && (n < |s| ==> IsNetlocDelimiter(s[n]))
    ensures forall k :: 0 <= k < n ==> !IsNetlocDelimiter(s[k])
    decreases |s|
  {
    if s == [] || IsNetlocDelimiter(s[0]) then 0 else 1 + NetlocLength(s[1..])
  }

  /** `urlparse(url).netloc`: after a leading `//`, up to the first `/`, `?`
      or `#`; empty when there is no `//`. */
  function Netloc(url: string): string {
    var rest := AfterScheme(url);
    if |rest| >= 2 && rest[..2] == "//" then rest[2..2 + NetlocLength(rest[2..])] else ""
  }

  /** `urlparse` raises ValueError on a netloc with one square bracket but
      not the other. */
  predicate NetlocRaises(url: string) {
    ('[' in Netloc(url)) != (']' in Netloc(url))
  }

  /** `_validate_url` does not raise. */
  predicate ValidUrl(url: string) {
    !NetlocRaises(url) && Scheme(url) != "" && Netloc(url) != ""
  }

  /** What a valid URL looks like, read off the string itself: a scheme,
      `://`, and a first host character that is not a delimiter, with a
      netloc holding both or neither of `[` and `]`. */
  lemma ValidUrlShape(url: string)
    ensures ValidUrl(url) <==>
              SchemeEnd(url).Some? && SchemeEnd(url).value + 3 < |url| &&
              url[SchemeEnd(url).value + 1] == '/' && url[SchemeEnd(url).value + 2] == '/' &&
              !IsNetlocDelimiter(url[SchemeEnd(url).value + 3]) && !NetlocRaises(url)
  {
    if SchemeEnd(url).Some? {
      var i := SchemeEnd(url).value;
      var rest := url[i + 1..];
      assert |Lower(url[..i])| == i;
      if |rest| >= 2 {
        assert rest[..2] == "//" <==> url[i + 1] == '/' && url[i + 2] == '/';
      }
      if |rest| > 2 {
        assert rest[2..][0] == url[i + 3];
      }
    }
  }

  /** Text without a colon has no scheme, so it is never a valid URL: a
      bare host name is not completed with a scheme. */
  lemma NoColonInvalid(url: string)
    requires ':' !in url
    ensures !ValidUrl(url)
  {
  }

  /** Any scheme followed by `://` and a host is valid; nothing is checked
      about the host beyond its first character and its brackets, so
      white space inside it is accepted. */
  lemma SchemeAndHostValid(scheme: string, host: string)
    requires scheme != [] && IsAsciiLetter(scheme[0])
    requires forall k :: 0 <= k < |scheme| ==> IsSchemeChar(scheme[k])
    requires host != [] && !IsNetlocDelimiter(host[0]) && '[' !in host && ']' !in host
    ensures ValidUrl(scheme + "://" + host)
  {
    var url := scheme + "://" + host;
    assert url == scheme + [':'] + ("//" + host);
    SchemeEndOf(scheme, "//" + host);
    assert |Scheme(url)| == |scheme|;
    var rest := AfterScheme(url);
    assert rest == "//" + host;
    assert rest[2..] == host;
    var n := NetlocLength(host);
    assert Netloc(url) == host[..n];
    assert host[..n][0] == host[0];
    assert forall c :: c in host[..n] ==> c in host;
  }

  /** The scheme ends at the first colon when every character before it may
      belong to a scheme. */
  lemma SchemeEndOf(scheme: string, rest: string)
    requires scheme != [] && IsAsciiLetter(scheme[0])
    requires forall k :: 0 <= k < |scheme| ==> IsSchemeChar(scheme[k])
    ensures SchemeEnd(scheme + [':'] + rest) == Some(|scheme|)
  {
    assert ':' !in scheme by {
      forall k | 0 <= k < |scheme| ensures scheme[k] != ':' {
        assert IsSchemeChar(scheme[k]);
      }
    }
    FindAfter(scheme, ':', rest);
  }

  // ---------------------------------------------------------------------
  // One button, one line, the whole input

  /** The properties every parsed button has. */
  predicate WellFormedButton(b: ParsedButton) {
    b.text != [] && Strip(b.text) == b.text && Strip(b.url) == b.url &&
    '+' !in b.text && '+' !in b.url && ValidUrl(b.url)
  }

  /** The checks of one `[...]` match, in the source's order: part count,
      then those of ButtonOf on the first three parts. */
  function ParseButton(m: string): Result<ParsedButton, DslError> {
    var parts := Map(Strip, Split(m, '+'));
    if |parts| < 2 then Err(TooFewParts)
    else ButtonOf(parts[0], parts[1], if |parts| >= 3 then parts[2] else "default")
  }

  /** Empty text, then the URL, then the style, lower-cased. */
  function ButtonOf(text: string, url: string, styleStr: string): Result<ParsedButton, DslError> {
    if text == [] then Err(EmptyButtonText)
    else if !ValidUrl(url) then Err(InvalidButtonUrl(text))
    else
      var token := Lower(styleStr);
      match StyleFromValue(token)
      case None => Err(UnknownButtonStyle(token))
      case Some(style) => Ok(ParsedButton(text, url, style))
  }

  /** Every button ParseButton accepts is well formed. */
  lemma ParseButtonWellFormed(m: string)
    requires ParseButton(m).Ok?
    ensures WellFormedButton(ParseButton(m).value)
  {
    var parts := Split(m, '+');
    StripTwice(parts[0]);
    StripTwice(parts[1]);
    StripChars(parts[0]);
    StripChars(parts[1]);
  }

  /** The text and URL of a button are made of characters of its match. */
  lemma ParseButtonChars(m: string)
    requires ParseButton(m).Ok?
    ensures forall c :: c in ParseButton(m).value.text || c in ParseButton(m).value.url ==> c in m
  {
    var parts := Split(m, '+');
    SplitChars(m, '+');
    StripChars(parts[0]);
    StripChars(parts[1]);
  }

  /** A match with a single `+` has two parts. */
  lemma SplitTwo(a: string, b: string)
    requires '+' !in a && '+' !in b
    ensures Split(a + "+" + b, '+') == [a, b]
  {
    assert a + "+" + b == a + ['+'] + b;
    SplitCons(a, b, '+');
  }

  /** A match splits into three parts when it holds exactly two `+`. */
  lemma SplitThree(a: string, b: string, c: string)
    requires '+' !in a && '+' !in b && '+' !in c
    ensures Split(a + "+" + b + "+" + c, '+') == [a, b, c]
  {
    assert a + "+" + b + "+" + c == a + ['+'] + (b + "+" + c);
    SplitCons(a, b + "+" + c, '+');
    SplitTwo(b, c);
  }

  /** A match is refused for too few parts exactly when it has no `+`. */
  lemma TooFewPartsIff(m: string)
    ensures ParseButton(m) == Err(TooFewParts) <==> '+' !in m
  {
  }

  /** An unfolding aid for the lemmas below, not a property of its own:
      ParseButton's body rewritten in terms of the split parts. */
  lemma ParseButtonParts(m: string)
    ensures |Split(m, '+')| >= 3 ==>
              ParseButton(m) == ButtonOf(Strip(Split(m, '+')[0]), Strip(Split(m, '+')[1]), Strip(Split(m, '+')[2]))
    ensures |Split(m, '+')| == 2 ==>
              ParseButton(m) == ButtonOf(Strip(Split(m, '+')[0]), Strip(Split(m, '+')[1]), "default")
  {
  }

  /** A match with a `+` whose text part is blank is refused for its text,
      whatever its URL and style parts hold. */
  lemma EmptyTextFirst(m: string)
    requires '+' in m && Strip(Split(m, '+')[0]) == []
    ensures ParseButton(m) == Err(EmptyButtonText)
  {
    ParseButtonParts(m);
  }

  /** With a text, a URL part that is not a valid URL is refused before the
      style part is looked at. */
  lemma UrlBeforeStyle(m: string)
    requires '+' in m && Strip(Split(m, '+')[0]) != [] && !ValidUrl(Strip(Split(m, '+')[1]))
    ensures ParseButton(m) == Err(InvalidButtonUrl(Strip(Split(m, '+')[0])))
  {
    ParseButtonParts(m);
  }

  /** With a text and a valid URL, the style part alone decides: a third
      part lower-cased, or "default" when there is none. */
  lemma StyleLast(m: string)
    requires '+' in m && Strip(Split(m, '+')[0]) != [] && ValidUrl(Strip(Split(m, '+')[1]))
    ensures var parts := Split(m, '+');
            var token := Lower(if |parts| >= 3 then Strip(parts[2]) else "default");
            ParseButton(m) ==
              (if StyleFromValue(token).Some?
               then Ok(ParsedButton(Strip(parts[0]), Strip(parts[1]), StyleFromValue(token).value))
               else Err(UnknownButtonStyle(token)))
  {
    ParseButtonParts(m);
  }

  /** The first three parts of a match with at least three `+`. */
  lemma SplitFour(a: string, b: string, c: string, rest: string)
    requires '+' !in a && '+' !in b && '+' !in c
    ensures |Split(a + "+" + b + "+" + c + "+" + rest, '+')| >= 3
    ensures Split(a + "+" + b + "+" + c + "+" + rest, '+')[..3] == [a, b, c]
  {
    var t2 := c + ['+'] + rest;
    var t1 := b + ['+'] + t2;
    var long := a + ['+'] + t1;
    assert a + "+" + b + "+" + c + "+" + rest == long;
    var tail: seq<string> := Split(rest, '+');
    SplitCons(c, rest, '+');
    SplitCons(b, t2, '+');
    SplitCons(a, t1, '+');
    var parts: seq<string> := Split(long, '+');
    assert parts == [a] + ([b] + ([c] + tail));
    PrefixThree(parts, a, b, c, tail);
  }

  lemma PrefixThree<T>(xs: seq<T>, x: T, y: T, z: T, tail: seq<T>)
    requires xs == [x] + ([y] + ([z] + tail))
    ensures |xs| >= 3 && xs[..3] == [x, y, z]
  {
    assert xs[..3] == [x, y, z];
  }

  /** Everything after a third `+` is ignored. */
  lemma ExtraPartsIgnored(a: string, b: string, c: string, rest: string)
    requires '+' !in a && '+' !in b && '+' !in c
    ensures ParseButton(a + "+" + b + "+" + c + "+" + rest) == ParseButton(a + "+" + b + "+" + c)
  {
    var long := a + "+" + b + "+" + c + "+" + rest;
    SplitFour(a, b, c, rest);
    SplitThree(a, b, c);
    var parts := Split(long, '+');
    assert parts[0] == parts[..3][0];
    assert parts[1] == parts[..3][1];
    assert parts[2] == parts[..3][2];
    ParseButtonParts(long);
    ParseButtonParts(a + "+" + b + "+" + c);
  }

  /** A button without a style has the default style. */
  lemma MissingStyleIsDefault(a: string, b: string)
    requires '+' !in a && '+' !in b
    ensures ParseButton(a + "+" + b) == ParseButton(a + "+" + b + "+" + "default")
  {
    var two, three := a + "+" + b, a + "+" + b + "+" + "default";
    SplitTwo(a, b);
    SplitThree(a, b, "default");
    ParseButtonParts(two);
    ParseButtonParts(three);
    assert ParseButton(two) == ButtonOf(Strip(a), Strip(b), "default");
    StripKeeps("default");
    assert ParseButton(three) == ButtonOf(Strip(a), Strip(b), "default");
  }

  /** A URL without a colon is refused, not completed with a scheme. */
  lemma NoSchemeRejected(text: string, url: string)
    requires '+' !in text && '+' !in url
    requires Strip(text) != [] && ':' !in url
    ensures ParseButton(text + "+" + url) == Err(InvalidButtonUrl(Strip(text)))
  {
    SplitTwo(text, url);
    ParseButtonParts(text + "+" + url);
    StripChars(url);
    NoColonInvalid(Strip(url));
  }

  /** The style a missing third part stands for. */
  lemma DefaultToken()
    ensures StyleFromValue(Lower("default")) == Some(Default)
  {
    assert Lower("default") == "default";
  }

  /** Two good parts make a button of the default style. */
  lemma TwoPartsAccepted(text: string, url: string)
    requires '+' !in text && '+' !in url
    requires Strip(text) != [] && ValidUrl(Strip(url))
    ensures ParseButton(text + "+" + url) == Ok(ParsedButton(Strip(text), Strip(url), Default))
  {
    SplitTwo(text, url);
    ParseButtonParts(text + "+" + url);
    assert ParseButton(text + "+" + url) == ButtonOf(Strip(text), Strip(url), "default");
    DefaultToken();
  }

  /** With good text and URL, the third part decides: its stripped,
      lower-cased form must name a style. */
  lemma StyleDecides(text: string, url: string, style: string)
    requires '+' !in text && '+' !in url && '+' !in style
    requires Strip(text) != [] && ValidUrl(Strip(url))
    ensures var token := Lower(Strip(style));
            ParseButton(text + "+" + url + "+" + style) ==
              if StyleFromValue(token).Some?
              then Ok(ParsedButton(Strip(text), Strip(url), StyleFromValue(token).value))
              else Err(UnknownButtonStyle(token))
  {
    SplitThree(text, url, style);
    ParseButtonParts(text + "+" + url + "+" + style);
  }

  /** A present but blank third part is not the default style. */
  lemma BlankStyleRejected(text: string, url: string, style: string)
    requires '+' !in text && '+' !in url && '+' !in style
    requires Strip(text) != [] && ValidUrl(Strip(url)) && AllSpace(style)
    ensures ParseButton(text + "+" + url + "+" + style) == Err(UnknownButtonStyle(""))
  {
    StyleDecides(text, url, style);
    StripEmpty(style);
    assert Lower("") == "";
  }

  /** One non-blank line: an error when it has no match, else one button per
      match, in order, unless a button fails. */
  function ParseRow(line: string): Result<Row, DslError> {
    var ms := FindAll(line);
    if ms == [] then Err(NoButtonsFound) else Collect(Map(ParseButton, ms))
  }

  /** A line parses exactly when it has a match and every match parses;
      then its buttons are those of its matches, in order. */
  lemma ParseRowOk(line: string)
    ensures ParseRow(line).Ok? <==>
              (FindAll(line) != [] && forall j :: 0 <= j < |FindAll(line)| ==> ParseButton(FindAll(line)[j]).Ok?)
    ensures ParseRow(line).Ok? ==> |ParseRow(line).value| == |FindAll(line)|
    ensures ParseRow(line).Ok? ==>
              forall j :: 0 <= j < |FindAll(line)| ==> ParseButton(FindAll(line)[j]) == Ok(ParseRow(line).value[j])
  {
    CollectOk(Map(ParseButton, FindAll(line)));
  }

  /** The non-empty strings of `lines`, in order. */
  function NonEmpty(lines: seq<string>): (nb: seq<string>)
    ensures |nb| <= |lines|
    ensures forall k :: 0 <= k < |nb| ==> nb[k] != []
    decreases |lines|
  {
    if lines == [] then []
    else
      var last := lines[|lines| - 1];
      NonEmpty(lines[..|lines| - 1]) + (if last == [] then [] else [last])
  }

  /** Dropping blank lines keeps exactly the non-empty lines, in order, as
      the list comprehension's `if line` does. */
  lemma {:induction false} NonEmptyIsFilter(lines: seq<string>)
    ensures NonEmpty(lines) == Filter((l: string) => l != [], lines)
    decreases |lines|
  {
    if lines != [] {
      var init := lines[..|lines| - 1];
      var last := lines[|lines| - 1];
      NonEmptyIsFilter(init);
      assert lines == init + [last];
      FilterSnoc((l: string) => l != [], init, last);
    }
  }

  /** The lines that become rows: `raw.strip().splitlines()`, each line
      stripped, blank ones dropped. */
  function Lines(raw: string): seq<string> {
    NonEmpty(Map(Strip, SplitLines(Strip(raw))))
  }

  /** The meaning of `parse_buttons_dsl(raw)`. */
  function Parse(raw: string): Result<seq<Row>, DslError> {
    Collect(Map(ParseRow, Lines(raw)))
  }

  // ---------------------------------------------------------------------
  // The parser

  /** `parse_buttons_dsl`: the lines loop and the matches loop, returning on
      the first fault. */
  method ParseButtonsDsl(raw: string) returns (r: Result<seq<Row>, DslError>)
    ensures r == Parse(raw)
  {
    var rows: seq<Row> := [];
    var lines := SplitLines(Strip(raw));
    ghost var stripped := Map(Strip, lines);
    for i := 0 to |lines|
      invariant Collect(Map(ParseRow, NonEmpty(stripped[..i]))) == Ok(rows)
    {
      var line := Strip(lines[i]);
      ghost var done := NonEmpty(stripped[..i]);
      assert stripped[i] == line;
      NextLine(stripped, i);
      if line == [] {
        continue;
      }
      var matches := FindAll(line);
      if matches == [] {
        LineFails(stripped, i, NoButtonsFound);
        return Err(NoButtonsFound);
      }
      var row: Row := [];
      for j := 0 to |matches|
        invariant Collect(Map(ParseButton, matches[..j])) == Ok(row)
      {
        var parts := Map(Strip, Split(matches[j], '+'));
        if |parts| < 2 {
          ButtonFails(stripped, i, matches, j, TooFewParts);
          return Err(TooFewParts);
        }
        var text := parts[0];
        var url := parts[1];
        var styleStr := if |parts| >= 3 then parts[2] else "default";
        if text == [] {
          ButtonFails(stripped, i, matches, j, EmptyButtonText);
          return Err(EmptyButtonText);
        }
        if !ValidUrl(url) {
          ButtonFails(stripped, i, matches, j, InvalidButtonUrl(text));
          return Err(InvalidButtonUrl(text));
        }
        styleStr := Lower(styleStr);
        var style := StyleFromValue(styleStr);
        if style.None? {
          ButtonFails(stripped, i, matches, j, UnknownButtonStyle(styleStr));
          return Err(UnknownButtonStyle(styleStr));
        }
        var button := ParsedButton(text, url, style.value);
        TakeSnoc(matches, j);
        MapSnoc(ParseButton, matches[..j], matches[j]);
        CollectSnoc(Map(ParseButton, matches[..j]), ParseButton(matches[j]));
        row := row + [button];
      }
      assert matches[..|matches|] == matches;
      assert ParseRow(line) == Ok(row);
      RowAppended(done, line, rows, row);
      rows := rows + [row];
    }
    assert stripped[..|lines|] == stripped;
    return Ok(rows);
  }

  /** The lines kept after one more input line. */
  lemma NextLine(stripped: seq<string>, i: nat)
    requires i < |stripped|
    ensures stripped[i] == [] ==> NonEmpty(stripped[..i + 1]) == NonEmpty(stripped[..i])
    ensures stripped[i] != [] ==> NonEmpty(stripped[..i + 1]) == NonEmpty(stripped[..i]) + [stripped[i]]
  {
    TakeSnoc(stripped, i);
    NonEmptySnoc(stripped[..i], stripped[i]);
    assert NonEmpty(stripped[..i]) + [] == NonEmpty(stripped[..i]);
  }

  /** One more line that parses adds its row. */
  lemma RowAppended(done: seq<string>, line: string, rows: seq<Row>, row: Row)
    requires Collect(Map(ParseRow, done)) == Ok(rows) && ParseRow(line) == Ok(row)
    ensures Collect(Map(ParseRow, done + [line])) == Ok(rows + [row])
  {
    MapSnoc(ParseRow, done, line);
    CollectSnoc(Map(ParseRow, done), ParseRow(line));
  }

  lemma NonEmptySnoc(lines: seq<string>, line: string)
    ensures NonEmpty(lines + [line]) == NonEmpty(lines) + (if line == [] then [] else [line])
  {
    assert (lines + [line])[..|lines|] == lines;
  }

  /** A failing non-empty line decides the result of the whole input. */
  lemma LineFails(lines: seq<string>, i: nat, e: DslError)
    requires i < |lines| && lines[i] != []
    requires Collect(Map(ParseRow, NonEmpty(lines[..i]))).Ok?
    requires ParseRow(lines[i]) == Err(e)
    ensures Collect(Map(ParseRow, NonEmpty(lines))) == Err(e)
  {
    var done, rest := NonEmpty(lines[..i]), NonEmpty(lines[i + 1..]);
    Around(lines, i);
    NonEmptyAppend(lines[..i] + [lines[i]], lines[i + 1..]);
    NonEmptySnoc(lines[..i], lines[i]);
    MapAppend(ParseRow, done + [lines[i]], rest);
    MapSnoc(ParseRow, done, lines[i]);
    CollectFailsAt(Map(ParseRow, done), ParseRow(lines[i]), Map(ParseRow, rest));
  }

  /** A failing button decides the result of its line, hence of the input. */
  lemma ButtonFails(lines: seq<string>, i: nat, matches: seq<string>, j: nat, e: DslError)
    requires i < |lines| && lines[i] != []
    requires matches == FindAll(lines[i]) && j < |matches|
    requires Collect(Map(ParseRow, NonEmpty(lines[..i]))).Ok?
    requires Collect(Map(ParseButton, matches[..j])).Ok?
    requires ParseButton(matches[j]) == Err(e)
    ensures Collect(Map(ParseRow, NonEmpty(lines))) == Err(e)
  {
    Around(matches, j);
    MapAppend(ParseButton, matches[..j] + [matches[j]], matches[j + 1..]);
    MapSnoc(ParseButton, matches[..j], matches[j]);
    CollectFailsAt(Map(ParseButton, matches[..j]), ParseButton(matches[j]), Map(ParseButton, matches[j + 1..]));
    LineFails(lines, i, e);
  }

  // ---------------------------------------------------------------------
  // Properties of the specification

  /** Empty lines are dropped and the others kept in order: NonEmpty
      distributes over concatenation. */
  lemma {:induction false} NonEmptyAppend(xs: seq<string>, ys: seq<string>)
    ensures NonEmpty(xs + ys) == NonEmpty(xs) + NonEmpty(ys)
    decreases |ys|
  {
    if ys == [] {
      assert xs + ys == xs;
    } else {
      var init, last := ys[..|ys| - 1], ys[|ys| - 1];
      NonEmptyAppend(xs, init);
      assert (xs + ys)[..|xs + ys| - 1] == xs + init;
      assert (xs + ys)[|xs + ys| - 1] == last;
    }
  }

  /** NonEmpty keeps only strings of its input. */
  lemma {:induction false} NonEmptyFrom(lines: seq<string>)
    ensures forall k :: 0 <= k < |NonEmpty(lines)| ==> NonEmpty(lines)[k] in lines
    decreases |lines|
  {
    if lines != [] {
      var init := lines[..|lines| - 1];
      NonEmptyFrom(init);
      assert forall x :: x in init ==> x in lines;
    }
  }

  /** A white-space line anywhere among the lines changes nothing. */
  lemma BlankLineIgnored(xs: seq<string>, blank: string, ys: seq<string>)
    requires AllSpace(blank)
    ensures NonEmpty(Map(Strip, xs + [blank] + ys)) == NonEmpty(Map(Strip, xs + ys))
  {
    var sx, sb, sy := Map(Strip, xs), Strip(blank), Map(Strip, ys);
    StripEmpty(blank);
    MapAppend(Strip, xs + [blank], ys);
    MapSnoc(Strip, xs, blank);
    MapAppend(Strip, xs, ys);
    NonEmptyAppend(sx + [sb], sy);
    NonEmptySnoc(sx, sb);
    NonEmptyAppend(sx, sy);
  }

  /** Every line that becomes a row is non-empty, stripped, and free of
      line breaks. */
  lemma LinesClean(raw: string)
    ensures forall k :: 0 <= k < |Lines(raw)| ==>
              Lines(raw)[k] != [] && Strip(Lines(raw)[k]) == Lines(raw)[k] &&
              forall c :: c in Lines(raw)[k] ==> !IsLineBreak(c)
  {
    var split := SplitLines(Strip(raw));
    var stripped := Map(Strip, split);
    NonEmptyFrom(stripped);
    forall k | 0 <= k < |Lines(raw)|
      ensures Strip(Lines(raw)[k]) == Lines(raw)[k]
      ensures forall c :: c in Lines(raw)[k] ==> !IsLineBreak(c)
    {
      var line := Lines(raw)[k];
      assert line in stripped;
      var x :| 0 <= x < |stripped| && stripped[x] == line;
      StripTwice(split[x]);
      StripChars(split[x]);
      forall c | c in line ensures !IsLineBreak(c) {
        var y :| 0 <= y < |split[x]| && split[x][y] == c;
      }
    }
  }

  /** Input made only of white space has no rows. */
  lemma WhitespaceOnlyHasNoRows(raw: string)
    requires AllSpace(raw)
    ensures Parse(raw) == Ok([])
  {
    StripEmpty(raw);
  }

  /** The parse succeeds exactly when every non-blank line does; then there
      is one row per non-blank line, in order, and one button per match of
      that line, left to right. */
  lemma ParseRows(raw: string)
    ensures Parse(raw).Ok? <==> forall k :: 0 <= k < |Lines(raw)| ==> ParseRow(Lines(raw)[k]).Ok?
    ensures Parse(raw).Ok? ==> |Parse(raw).value| == |Lines(raw)|
    ensures Parse(raw).Ok? ==>
              forall k :: 0 <= k < |Lines(raw)| ==> ParseRow(Lines(raw)[k]) == Ok(Parse(raw).value[k])
  {
    CollectOk(Map(ParseRow, Lines(raw)));
  }

  /** A failed parse reports the fault of the first failing non-blank line
      and returns no rows at all. */
  lemma ParseFirstFault(raw: string)
    requires Parse(raw).Err?
    ensures exists k :: 0 <= k < |Lines(raw)| && ParseRow(Lines(raw)[k]) == Err(Parse(raw).error) &&
                        forall k' :: 0 <= k' < k ==> ParseRow(Lines(raw)[k']).Ok?
  {
    CollectErr(Map(ParseRow, Lines(raw)));
  }

  /** Within a line, the fault reported is that of the first failing match. */
  lemma ParseRowFirstFault(line: string)
    requires FindAll(line) != [] && ParseRow(line).Err?
    ensures exists j :: 0 <= j < |FindAll(line)| && ParseButton(FindAll(line)[j]) == Err(ParseRow(line).error) &&
                        forall j' :: 0 <= j' < j ==> ParseButton(FindAll(line)[j']).Ok?
  {
    CollectErr(Map(ParseButton, FindAll(line)));
  }

  /** A non-blank line with no bracket match fails the whole input, with
      NoButtonsFound when the lines before it are fine. */
  lemma LineWithoutBrackets(raw: string, k: nat)
    requires k < |Lines(raw)| && FindAll(Lines(raw)[k]) == []
    ensures Parse(raw).Err?
    ensures (forall k' :: 0 <= k' < k ==> ParseRow(Lines(raw)[k']).Ok?) ==> Parse(raw) == Err(NoButtonsFound)
  {
    var lines := Lines(raw);
    assert ParseRow(lines[k]) == Err(NoButtonsFound);
    ParseRows(raw);
    if forall k' :: 0 <= k' < k ==> ParseRow(lines[k']).Ok? {
      ParseFirstFault(raw);
      var f :| 0 <= f < |lines| && ParseRow(lines[f]) == Err(Parse(raw).error) &&
               forall k' :: 0 <= k' < f ==> ParseRow(lines[k']).Ok?;
      assert f == k;
    }
  }

  /** Every button of a successful parse is well formed, and neither its
      text nor its URL holds `]` or a line break. */
  lemma ParsedButtonsClean(raw: string, k: nat, j: nat)
    requires Parse(raw).Ok? && k < |Parse(raw).value| && j < |Parse(raw).value[k]|
    ensures WellFormedButton(Parse(raw).value[k][j])
    ensures forall c :: c in Parse(raw).value[k][j].text || c in Parse(raw).value[k][j].url ==>
              c != ']' && !IsLineBreak(c)
  {
    ParseRows(raw);
    LinesClean(raw);
    var b := Parse(raw).value[k][j];
    var line := Lines(raw)[k];
    ParseRowOk(line);
    var m := FindAll(line)[j];
    assert ParseButton(m) == Ok(b);
    ParseButtonWellFormed(m);
    ParseButtonChars(m);
    FindAllChars(line);
    forall c | c in m ensures c != ']' && !IsLineBreak(c) {
      var x :| 0 <= x < |m| && m[x] == c;
    }
  }
}
