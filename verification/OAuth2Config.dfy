// The renderer of the oauth2-proxy configuration (pkg/configuration/oauth2-proxy-template.go):
// a template is read line by line, known keys get the configured values, comments and
// switched-off keys are dropped.

module OAuth2Config {
  import opened GoStrings

  datatype Options = Options(clientID: string, clientSecretFile: string, clientSecret: string, scope: string,
                             redirectURL: string, oidcIssuerURL: string, sslInsecureSkipVerify: bool,
                             insecureOidcSkipIssuerVerification: bool, insecureOidcSkipNonce: bool)

  // ---------------------------------------------------------------- lines

  function DropCR(line: string): string {
    TrimSuffix(line, "\r")
  }

  // bufio.ScanLines
  function Lines(text: string): seq<string>
    decreases |text|
  {
    if text == "" then [] else
    var i := Index(text, '\n');
    if i < |text| then [DropCR(text[..i])] + Lines(text[i + 1..]) else [DropCR(text)]
  }

  // Every line followed by a line break, as the builder holds them.
  function Terminated(lines: seq<string>): string {
    if lines == [] then "" else lines[0] + "\n" + Terminated(lines[1..])
  }

  function Joined(lines: seq<string>): string {
    TrimSuffix(Terminated(lines), "\n")
  }

  // unicode.IsSpace
  predicate IsSpace(c: char) {
    c in {'\t', '\n', '\U{000B}', '\U{000C}', '\r', ' ', '\U{0085}', '\U{00A0}', '\U{1680}', '\U{2028}', '\U{2029}',
          '\U{202F}', '\U{205F}', '\U{3000}'}
    || '\U{2000}' <= c <= '\U{200A}'
  }

  function TrimLeft(s: string): string {
    if s != "" && IsSpace(s[0]) then TrimLeft(s[1..]) else s
  }

  function TrimRight(s: string): string {
    if s != "" && IsSpace(s[|s| - 1]) then TrimRight(s[..|s| - 1]) else s
  }

  function TrimSpace(s: string): string {
    TrimRight(TrimLeft(s))
  }

  // ---------------------------------------------------------------- rendering

  // What the options make of a key: a value, or no line at all.
  datatype Setting = Omitted | Value(value: string)

  type Settings = map<string, Setting>

  function FormatBool(b: bool): string {
    if b then "true" else "false"
  }

  const SCOPE := "scope"
  const CLIENT_ID := "client_id"
  const CLIENT_SECRET := "client_secret"
  const CLIENT_SECRET_FILE := "client_secret_file"
  const REDIRECT_URL := "redirect_url"
  const OIDC_ISSUER_URL := "oidc_issuer_url"
  const SSL_INSECURE_SKIP_VERIFY := "ssl_insecure_skip_verify"
  const INSECURE_OIDC_SKIP_ISSUER_VERIFICATION := "insecure_oidc_skip_issuer_verification"
  const INSECURE_OIDC_SKIP_NONCE := "insecure_oidc_skip_nonce"

  const KEYS: set<string> := {SCOPE, CLIENT_ID, CLIENT_SECRET, CLIENT_SECRET_FILE, REDIRECT_URL, OIDC_ISSUER_URL,
                              SSL_INSECURE_SKIP_VERIFY, INSECURE_OIDC_SKIP_ISSUER_VERIFICATION,
                              INSECURE_OIDC_SKIP_NONCE}

  function SettingOf(o: Options, key: string): Setting
    requires key in KEYS
  {
    if key == SCOPE then Value(o.scope)
    else if key == CLIENT_ID then Value(o.clientID)
    else if key == CLIENT_SECRET then (if o.clientSecret != "" then Value(o.clientSecret) else Omitted)
    else if key == CLIENT_SECRET_FILE then (if o.clientSecret == "" then Value(o.clientSecretFile) else Omitted)
    else if key == REDIRECT_URL then Value(o.redirectURL)
    else if key == OIDC_ISSUER_URL then Value(o.oidcIssuerURL)
    else if key == SSL_INSECURE_SKIP_VERIFY then Value(FormatBool(o.sslInsecureSkipVerify))
    else if key == INSECURE_OIDC_SKIP_ISSUER_VERIFICATION then Value(FormatBool(o.insecureOidcSkipIssuerVerification))
    else Value(FormatBool(o.insecureOidcSkipNonce))
  }

  function SettingsOf(o: Options): Settings {
    map key | key in KEYS :: SettingOf(o, key)
  }

  predicate IsComment(line: string) {
    HasPrefix(line, "#")
  }

  predicate Assigns(line: string) {
    !IsComment(line) && '=' in line
  }

  function KeyOf(line: string): string {
    TrimSpace(Cut(line, '=').0)
  }

  function Assignment(key: string, value: string): string {
    key + "=" + "\"" + value + "\""
  }

  function Substitute(key: string, line: string, settings: Settings): string {
    if key !in settings then line else
    match settings[key]
    case Omitted => ""
    case Value(value) => Assignment(key, value)
  }

  // The line written for a line read; the empty string stands for none.
  function RenderLine(line: string, settings: Settings): string {
    if IsComment(line) then ""
    else if '=' in line then Substitute(KeyOf(line), line, settings)
    else line
  }

  function RenderLines(lines: seq<string>, settings: Settings): seq<string> {
    if lines == [] then [] else
    (if RenderLine(lines[0], settings) == "" then [] else [RenderLine(lines[0], settings)])
    + RenderLines(lines[1..], settings)
  }

  function Render(template: string, settings: Settings): string {
    Joined(RenderLines(Lines(template), settings))
  }

  lemma {:induction false} RenderLinesAppend(lines: seq<string>, line: string, settings: Settings)
    ensures RenderLines(lines + [line], settings)
            == RenderLines(lines, settings) + (if RenderLine(line, settings) == "" then [] else [RenderLine(line, settings)])
  {
    if lines == [] {
      assert lines + [line] == [line];
    } else {
      RenderLinesAppend(lines[1..], line, settings);
      var all := lines + [line];
      assert all[0] == lines[0] && all[1..] == lines[1..] + [line];
      var first := if RenderLine(lines[0], settings) == "" then [] else [RenderLine(lines[0], settings)];
      var last := if RenderLine(line, settings) == "" then [] else [RenderLine(line, settings)];
      assert RenderLines(all, settings) == first + (RenderLines(lines[1..], settings) + last);
    }
  }

  lemma {:induction false} TerminatedAppend(lines: seq<string>, line: string)
    ensures Terminated(lines + [line]) == Terminated(lines) + line + "\n"
  {
    if lines == [] {
      assert lines + [line] == [line];
      assert Terminated([line][1..]) == "";
    } else {
      TerminatedAppend(lines[1..], line);
      assert (lines + [line])[1..] == lines[1..] + [line];
      assert lines[0] + "\n" + (Terminated(lines[1..]) + line + "\n") == Terminated(lines) + line + "\n";
    }
  }

  // The switch over the known keys.
  method ReplaceValue(l: string, line: string, o: Options) returns (r: string)
    ensures r == Substitute(l, line, SettingsOf(o))
  {
    if l == SCOPE {
      r := l + "=" + "\"" + o.scope + "\"";
    } else if l == CLIENT_ID {
      r := l + "=" + "\"" + o.clientID + "\"";
    } else if l == CLIENT_SECRET {
      r := if o.clientSecret != "" then l + "=" + "\"" + o.clientSecret + "\"" else "";
    } else if l == CLIENT_SECRET_FILE {
      r := if o.clientSecret == "" then l + "=" + "\"" + o.clientSecretFile + "\"" else "";
    } else if l == REDIRECT_URL {
      r := l + "=" + "\"" + o.redirectURL + "\"";
    } else if l == OIDC_ISSUER_URL {
      r := l + "=" + "\"" + o.oidcIssuerURL + "\"";
    } else if l == SSL_INSECURE_SKIP_VERIFY {
      r := l + "=" + "\"" + FormatBool(o.sslInsecureSkipVerify) + "\"";
    } else if l == INSECURE_OIDC_SKIP_ISSUER_VERIFICATION {
      r := l + "=" + "\"" + FormatBool(o.insecureOidcSkipIssuerVerification) + "\"";
    } else if l == INSECURE_OIDC_SKIP_NONCE {
      r := l + "=" + "\"" + FormatBool(o.insecureOidcSkipNonce) + "\"";
    } else {
      r := line;
    }
  }

  // Parse with its loop over scanned lines, the reassigned line and the builder.
  method Parse(template: string, o: Options) returns (config: string)
    ensures config == Render(template, SettingsOf(o))
  {
    ghost var settings := SettingsOf(o);
    var scanned := Lines(template);
    var builder := "";
    for i := 0 to |scanned|
      invariant builder == Terminated(RenderLines(scanned[..i], settings))
    {
      RenderLinesAppend(scanned[..i], scanned[i], settings);
      assert scanned[..i + 1] == scanned[..i] + [scanned[i]];
      var line := scanned[i];
      if HasPrefix(line, "#") {
        assert RenderLines(scanned[..i + 1], settings) == RenderLines(scanned[..i], settings);
        continue;
      }
      if '=' in line {
        line := ReplaceValue(TrimSpace(Cut(line, '=').0), line, o);
      }
      if |line| > 0 {
        TerminatedAppend(RenderLines(scanned[..i], settings), line);
        builder := builder + line + "\n";
      } else {
        assert RenderLines(scanned[..i + 1], settings) == RenderLines(scanned[..i], settings);
      }
    }
    assert scanned[..|scanned|] == scanned;
    config := TrimSuffix(builder, "\n");
  }

  // ---------------------------------------------------------------- reading back

  // An independent reader: the first assignment of the key, without the outer quotes.
  function Unquote(s: string): string {
    TrimSuffix(TrimPrefix(TrimSpace(s), "\""), "\"")
  }

  function LookupLines(lines: seq<string>, key: string): (r: Setting)
  {
    if lines == [] then Omitted
    else if Assigns(lines[0]) && KeyOf(lines[0]) == key then Value(Unquote(Cut(lines[0], '=').1))
    else LookupLines(lines[1..], key)
  }

  function Lookup(config: string, key: string): Setting {
    LookupLines(Lines(config), key)
  }

  predicate Mentions(lines: seq<string>, key: string) {
    exists i :: 0 <= i < |lines| && Assigns(lines[i]) && KeyOf(lines[i]) == key
  }

  // Keys as the renderer knows them, and values without line breaks.
  predicate Proper(settings: Settings) {
    forall key :: key in settings ==>
      && key != "" && TrimSpace(key) == key && '=' !in key && '\n' !in key && key[0] != '#'
      && (settings[key].Value? ==> '\n' !in settings[key].value)
  }

  // A line that survives being written and scanned again.
  predicate Solid(line: string) {
    line != "" && '\n' !in line && line[|line| - 1] != '\r'
  }

  lemma {:induction false} IndexAbsent(s: string, c: char, rest: string)
    requires c !in s
    ensures Index(s + [c] + rest, c) == |s|
    ensures Index(s, c) == |s|
  {
    var t := s + [c] + rest;
    assert t[|s|] == c;
    IndexBefore(t, c, |s|);
    assert forall i :: 0 <= i < |s| ==> t[i] == s[i];
  }

  lemma ScanFirst(head: string, rest: string)
    requires '\n' !in head && (head == "" || head[|head| - 1] != '\r')
    ensures Lines(head + "\n" + rest) == [head] + Lines(rest)
    ensures head != "" ==> Lines(head) == [head]
  {
    var text := head + ['\n'] + rest;
    IndexAbsent(head, '\n', rest);
    assert text[..|head|] == head && text[|head| + 1..] == rest;
    assert DropCR(head) == head;
  }

  // Written lines are scanned as they were.
  lemma {:induction false} LinesOfJoined(lines: seq<string>)
    requires forall i :: 0 <= i < |lines| ==> Solid(lines[i])
    ensures Lines(Joined(lines)) == lines
  {
    if lines != [] {
      var head, rest := lines[0], lines[1..];
      LinesOfJoined(rest);
      JoinedStep(lines);
      ScanFirst(head, Joined(rest));
      if |lines| == 1 {
        assert Joined(lines) == head && lines == [head];
      } else {
        assert Joined(lines) == head + "\n" + Joined(rest);
        assert lines == [head] + rest;
      }
    }
  }

  lemma JoinedStep(lines: seq<string>)
    requires lines != []
    ensures Joined(lines) == if |lines| == 1 then lines[0] else lines[0] + "\n" + Joined(lines[1..])
  {
    if |lines| == 1 {
      assert Terminated(lines) == lines[0] + "\n";
    } else {
      TerminatedEnds(lines[1..]);
      var rest := Terminated(lines[1..]);
      assert rest == rest[..|rest| - 1] + "\n";
      assert Terminated(lines) == (lines[0] + "\n" + rest[..|rest| - 1]) + "\n";
    }
  }

  lemma {:induction false} TerminatedEnds(lines: seq<string>)
    requires lines != []
    ensures HasSuffix(Terminated(lines), "\n")
  {
    if |lines| > 1 {
      TerminatedEnds(lines[1..]);
    } else {
      assert Terminated(lines[1..]) == "";
    }
  }

  lemma {:induction false} LinesHaveNoBreaks(text: string, i: nat)
    requires i < |Lines(text)| && '\r' !in text
    ensures '\n' !in Lines(text)[i] && '\r' !in Lines(text)[i]
    decreases |text|
  {
    var k := Index(text, '\n');
    if k < |text| && i > 0 {
      LinesHaveNoBreaks(text[k + 1..], i - 1);
    } else {
      assert text[..k] <= text;
    }
  }

  lemma TrimmedStays(s: string)
    requires s != "" && !IsSpace(s[0]) && !IsSpace(s[|s| - 1])
    ensures TrimSpace(s) == s
  {
  }

  // A rendered assignment is an assignment of the same key, and carries exactly the value,
  // whatever characters the value consists of.
  lemma AssignmentReads(key: string, value: string)
    requires key != "" && TrimSpace(key) == key && '=' !in key && key[0] != '#'
    ensures var line := Assignment(key, value);
            && line != "" && line[|line| - 1] == '\"'
            && Assigns(line) && KeyOf(line) == key && Unquote(Cut(line, '=').1) == value
  {
    var quoted := "\"" + value + "\"";
    assert Assignment(key, value) == key + ['='] + quoted;
    CutAt(key, '=', quoted);
    TrimmedStays(quoted);
    assert TrimPrefix(quoted, "\"") == value + "\"";
    assert TrimSuffix(value + "\"", "\"") == value;
  }

  lemma RenderedSolid(line: string, settings: Settings)
    requires '\n' !in line && '\r' !in line && Proper(settings)
    requires RenderLine(line, settings) != ""
    ensures Solid(RenderLine(line, settings))
  {
    if '=' in line {
      SubstituteSolid(KeyOf(line), line, settings);
    }
  }

  lemma SubstituteSolid(key: string, line: string, settings: Settings)
    requires '\n' !in line && '\r' !in line && Proper(settings)
    requires Substitute(key, line, settings) != ""
    ensures Solid(Substitute(key, line, settings))
  {
  }

  lemma {:induction false} RenderLinesSolid(lines: seq<string>, settings: Settings)
    requires forall i :: 0 <= i < |lines| ==> '\n' !in lines[i] && '\r' !in lines[i]
    requires Proper(settings)
    ensures forall i :: 0 <= i < |RenderLines(lines, settings)| ==> Solid(RenderLines(lines, settings)[i])
  {
    if lines != [] {
      RenderLinesSolid(lines[1..], settings);
      if RenderLine(lines[0], settings) != "" {
        RenderedSolid(lines[0], settings);
      }
    }
  }

  lemma ScannedRender(template: string, settings: Settings)
    requires '\r' !in template && Proper(settings)
    ensures Lines(Render(template, settings)) == RenderLines(Lines(template), settings)
  {
    var lines := Lines(template);
    forall i | 0 <= i < |lines| ensures '\n' !in lines[i] && '\r' !in lines[i] {
      LinesHaveNoBreaks(template, i);
    }
    RenderLinesSolid(lines, settings);
    LinesOfJoined(RenderLines(lines, settings));
  }

  lemma MentionsSplit(lines: seq<string>, key: string)
    requires lines != []
    ensures Mentions(lines, key) <==> (Assigns(lines[0]) && KeyOf(lines[0]) == key) || Mentions(lines[1..], key)
  {
    if Mentions(lines[1..], key) {
      var i :| 0 <= i < |lines[1..]| && Assigns(lines[1..][i]) && KeyOf(lines[1..][i]) == key;
      assert lines[i + 1] == lines[1..][i];
    }
    if Mentions(lines, key) && !(Assigns(lines[0]) && KeyOf(lines[0]) == key) {
      var i :| 0 <= i < |lines| && Assigns(lines[i]) && KeyOf(lines[i]) == key;
      assert lines[i] == lines[1..][i - 1];
    }
  }

  // What looking up a key makes of one rendered line.
  lemma RenderedLine(line: string, settings: Settings, key: string)
    requires Proper(settings) && key in settings
    ensures var rendered := RenderLine(line, settings);
            if Assigns(line) && KeyOf(line) == key then
              if settings[key].Omitted? then rendered == ""
              else rendered != "" && Assigns(rendered) && KeyOf(rendered) == key
                   && Unquote(Cut(rendered, '=').1) == settings[key].value
            else rendered == "" || !Assigns(rendered) || KeyOf(rendered) != key
  {
    var own := KeyOf(line);
    if Assigns(line) && own in settings && settings[own].Value? {
      AssignmentReads(own, settings[own].value);
    }
  }

  lemma {:induction false} LookupRendered(lines: seq<string>, settings: Settings, key: string)
    requires Proper(settings) && key in settings
    ensures LookupLines(RenderLines(lines, settings), key) == if Mentions(lines, key) then settings[key] else Omitted
  {
    if lines != [] {
      LookupRendered(lines[1..], settings, key);
      MentionsSplit(lines, key);
      RenderedLine(lines[0], settings, key);
      var all := RenderLines(lines, settings);
      if RenderLine(lines[0], settings) != "" {
        assert all[0] == RenderLine(lines[0], settings) && all[1..] == RenderLines(lines[1..], settings);
      } else {
        assert all == RenderLines(lines[1..], settings);
      }
    }
  }

  // Read-back: for every template, a known key reads back if and only if the template
  // mentions it and the options do not switch it off, and then it reads back as exactly the
  // configured value, '=' and quotes inside it included.
  lemma ReadBack(template: string, settings: Settings, key: string)
    requires '\r' !in template && Proper(settings) && key in settings
    ensures Lookup(Render(template, settings), key)
            == if Mentions(Lines(template), key) then settings[key] else Omitted
  {
    ScannedRender(template, settings);
    LookupRendered(Lines(template), settings, key);
  }

  lemma RenderLineTwice(line: string, settings: Settings)
    requires Proper(settings) && RenderLine(line, settings) != ""
    ensures RenderLine(RenderLine(line, settings), settings) == RenderLine(line, settings)
  {
    var key := KeyOf(line);
    if '=' in line && key in settings && settings[key].Value? {
      AssignmentReads(key, settings[key].value);
    }
  }

  lemma {:induction false} RenderLinesTwice(lines: seq<string>, settings: Settings)
    requires Proper(settings)
    ensures RenderLines(RenderLines(lines, settings), settings) == RenderLines(lines, settings)
  {
    if lines != [] {
      RenderLinesTwice(lines[1..], settings);
      var rendered := RenderLines(lines, settings);
      if RenderLine(lines[0], settings) != "" {
        RenderLineTwice(lines[0], settings);
        assert rendered[0] == RenderLine(lines[0], settings) && rendered[1..] == RenderLines(lines[1..], settings);
      } else {
        assert rendered == RenderLines(lines[1..], settings);
      }
    }
  }

  // Rendering a rendered configuration again with the same options changes nothing.
  lemma RenderTwice(template: string, settings: Settings)
    requires '\r' !in template && Proper(settings)
    ensures Render(Render(template, settings), settings) == Render(template, settings)
  {
    ScannedRender(template, settings);
    RenderLinesTwice(Lines(template), settings);
  }

  // ---------------------------------------------------------------- templates of assignments

  // Templates like the shipped one: comments, and assignments aligned in one column.
  datatype TemplateLine = Comment(text: string) | Setting(key: string, value: string)

  function Spaces(n: nat): string {
    if n == 0 then "" else Spaces(n - 1) + " "
  }

  function TextOf(line: TemplateLine): string {
    match line
    case Comment(text) => "#" + text
    case Setting(key, value) => key + Spaces(if |key| < 39 then 39 - |key| else 0) + "= \"" + value + "\""
  }

  function TextsOf(lines: seq<TemplateLine>): (texts: seq<string>)
    ensures |texts| == |lines| && forall i :: 0 <= i < |lines| ==> texts[i] == TextOf(lines[i])
  {
    if lines == [] then [] else [TextOf(lines[0])] + TextsOf(lines[1..])
  }

  // Lower-case letters and underscores.
  predicate IsWord(key: string) {
    key != "" && forall i :: 0 <= i < |key| ==> 'a' <= key[i] <= 'z' || key[i] == '_'
  }

  predicate Unbroken(s: string) {
    '\n' !in s && '\r' !in s
  }

  predicate Tidy(line: TemplateLine) {
    match line
    case Comment(text) => Unbroken(text)
    case Setting(key, value) => IsWord(key) && Unbroken(value)
  }

  lemma WordsAreTrimmed(key: string)
    requires IsWord(key)
    ensures TrimSpace(key) == key && '=' !in key && '\n' !in key && '\r' !in key && key[0] != '#'
    ensures TrimLeft(key) == key && TrimRight(key) == key
  {
    TrimmedStays(key);
  }

  lemma {:induction false} TrimRightSpaces(s: string, n: nat)
    requires s == TrimRight(s)
    ensures TrimRight(s + Spaces(n)) == s
  {
    var t := s + Spaces(n);
    if n > 0 {
      assert t[..|t| - 1] == s + Spaces(n - 1);
      TrimRightSpaces(s, n - 1);
    } else {
      assert t == s;
    }
  }

  lemma {:induction false} SpacesOnly(n: nat, c: char)
    requires c != ' '
    ensures c !in Spaces(n)
  {
    if n > 0 {
      SpacesOnly(n - 1, c);
    }
  }

  lemma PaddedKey(key: string, n: nat)
    requires IsWord(key)
    ensures var padded := key + Spaces(n);
            TrimSpace(padded) == key && Unbroken(padded) && '=' !in padded
  {
    var padded := key + Spaces(n);
    WordsAreTrimmed(key);
    SpacesOnly(n, '=');
    SpacesOnly(n, '\n');
    SpacesOnly(n, '\r');
    assert TrimLeft(padded) == padded;
    TrimRightSpaces(key, n);
  }

  lemma TidyLine(line: TemplateLine)
    requires Tidy(line)
    ensures Unbroken(TextOf(line)) && TextOf(line) != ""
    ensures line.Setting? ==> Assigns(TextOf(line)) && KeyOf(TextOf(line)) == line.key
  {
    if line.Setting? {
      var n := if |line.key| < 39 then 39 - |line.key| else 0;
      PaddedKey(line.key, n);
      PaddedText(line.key + Spaces(n), line.value);
      assert line.key[0] != '#';
    }
  }

  lemma PaddedText(padded: string, value: string)
    requires padded != "" && Unbroken(padded) && '=' !in padded && Unbroken(value)
    ensures var text := padded + "= \"" + value + "\"";
            Unbroken(text) && text[0] == padded[0] && '=' in text && Cut(text, '=').0 == padded
  {
    var rest := " \"" + value + "\"";
    CutAt(padded, '=', rest);
    assert padded + "= \"" + value + "\"" == padded + ['='] + rest;
  }

  lemma {:induction false} TerminatedHasNo(lines: seq<string>, c: char)
    requires c != '\n' && forall i :: 0 <= i < |lines| ==> c !in lines[i]
    ensures c !in Terminated(lines) && c !in Joined(lines)
  {
    if lines != [] {
      TerminatedHasNo(lines[1..], c);
    }
  }

  lemma ProperSettings(settings: Settings)
    requires forall key :: key in settings ==> IsWord(key) && (settings[key].Value? ==> '\n' !in settings[key].value)
    ensures Proper(settings)
  {
    forall key | key in settings ensures TrimSpace(key) == key && '=' !in key && '\n' !in key && key[0] != '#' {
      WordsAreTrimmed(key);
    }
  }

  // What a template of this kind renders to reads back key by key, and renders to itself.
  lemma TemplateReadBack(lines: seq<TemplateLine>, settings: Settings, i: nat)
    requires forall j :: 0 <= j < |lines| ==> Tidy(lines[j])
    requires forall key :: key in settings ==> IsWord(key) && (settings[key].Value? ==> '\n' !in settings[key].value)
    requires i < |lines| && lines[i].Setting? && lines[i].key in settings
    ensures var config := Render(Joined(TextsOf(lines)), settings);
            Lookup(config, lines[i].key) == settings[lines[i].key] && Render(config, settings) == config
  {
    var texts := TextsOf(lines);
    forall j | 0 <= j < |texts| ensures Solid(texts[j]) && '\r' !in texts[j] {
      TidyLine(lines[j]);
    }
    TidyLine(lines[i]);
    assert Mentions(texts, lines[i].key);
    ProperSettings(settings);
    TerminatedHasNo(texts, '\r');
    LinesOfJoined(texts);
    ReadBack(Joined(texts), settings, lines[i].key);
    RenderTwice(Joined(texts), settings);
  }

  // ---------------------------------------------------------------- the shipped template

  predicate Sets(line: TemplateLine, key: string) {
    line.Setting? && line.key == key && Unbroken(line.value)
  }

  predicate Comments(line: TemplateLine) {
    line.Comment? && Unbroken(line.text)
  }

  // The lines of the shipped template. The text of its comments and the values it holds in
  // place of the configured ones do not matter to what follows.
  predicate IsShipped(lines: seq<TemplateLine>) {
    && |lines| == 11
    && Comments(lines[0]) && Sets(lines[1], SCOPE) && Sets(lines[2], CLIENT_ID)
    && Comments(lines[3]) && Sets(lines[4], CLIENT_SECRET) && Sets(lines[5], CLIENT_SECRET_FILE)
    && Sets(lines[6], REDIRECT_URL) && Sets(lines[7], OIDC_ISSUER_URL) && Sets(lines[8], SSL_INSECURE_SKIP_VERIFY)
    && Sets(lines[9], INSECURE_OIDC_SKIP_ISSUER_VERIFICATION) && Sets(lines[10], INSECURE_OIDC_SKIP_NONCE)
  }

  // No configured value contains a line break.
  predicate SingleLine(o: Options) {
    '\n' !in o.clientID && '\n' !in o.clientSecretFile && '\n' !in o.clientSecret && '\n' !in o.scope
    && '\n' !in o.redirectURL && '\n' !in o.oidcIssuerURL
  }

  lemma Words()
    ensures IsWord(SCOPE) && IsWord(CLIENT_ID) && IsWord(CLIENT_SECRET) && IsWord(CLIENT_SECRET_FILE)
    ensures IsWord(REDIRECT_URL) && IsWord(OIDC_ISSUER_URL) && IsWord(SSL_INSECURE_SKIP_VERIFY)
    ensures IsWord(INSECURE_OIDC_SKIP_ISSUER_VERIFICATION) && IsWord(INSECURE_OIDC_SKIP_NONCE)
  {
    ShortWords();
    UrlWords();
    SkipWords();
  }

  lemma ShortWords()
    ensures IsWord(SCOPE) && IsWord(CLIENT_ID) && IsWord(CLIENT_SECRET) && IsWord(CLIENT_SECRET_FILE)
  {
  }

  lemma UrlWords()
    ensures IsWord(REDIRECT_URL) && IsWord(OIDC_ISSUER_URL) && IsWord(SSL_INSECURE_SKIP_VERIFY)
  {
  }

  lemma SkipWords()
    ensures IsWord(INSECURE_OIDC_SKIP_ISSUER_VERIFICATION) && IsWord(INSECURE_OIDC_SKIP_NONCE)
  {
  }

  lemma ShippedIsTidy(lines: seq<TemplateLine>)
    requires IsShipped(lines)
    ensures forall j :: 0 <= j < |lines| ==> Tidy(lines[j])
  {
    Words();
  }

  // Every known key has its line in the shipped template.
  lemma ShippedAssigns(lines: seq<TemplateLine>, key: string) returns (i: nat)
    requires IsShipped(lines) && key in KEYS
    ensures i < |lines| && lines[i].Setting? && lines[i].key == key
  {
    i := if key == SCOPE then 1 else if key == CLIENT_ID then 2 else if key == CLIENT_SECRET then 4
         else if key == CLIENT_SECRET_FILE then 5 else if key == REDIRECT_URL then 6
         else if key == OIDC_ISSUER_URL then 7 else if key == SSL_INSECURE_SKIP_VERIFY then 8
         else if key == INSECURE_OIDC_SKIP_ISSUER_VERIFICATION then 9 else 10;
  }

  lemma SettingsTidy(o: Options, settings: Settings)
    requires SingleLine(o) && settings == SettingsOf(o)
    ensures forall key :: key in settings ==> IsWord(key) && (settings[key].Value? ==> '\n' !in settings[key].value)
  {
    Words();
  }

  // The configuration rendered from the shipped template says exactly what the options say:
  // every key reads back as its setting, and rendering it again changes nothing.
  lemma ShippedReadBack(lines: seq<TemplateLine>, o: Options, settings: Settings, key: string)
    requires IsShipped(lines) && SingleLine(o) && settings == SettingsOf(o) && key in settings
    ensures var config := Render(Joined(TextsOf(lines)), settings);
            Lookup(config, key) == settings[key] && Render(config, settings) == config
  {
    ShippedIsTidy(lines);
    SettingsTidy(o, settings);
    var i := ShippedAssigns(lines, key);
    TemplateReadBack(lines, settings, i);
  }

  lemma SecretSettings(o: Options, settings: Settings)
    requires settings == SettingsOf(o)
    ensures CLIENT_SECRET in settings && CLIENT_SECRET_FILE in settings
    ensures settings[CLIENT_SECRET] == if o.clientSecret == "" then Omitted else Value(o.clientSecret)
    ensures settings[CLIENT_SECRET_FILE] == if o.clientSecret == "" then Value(o.clientSecretFile) else Omitted
  {
  }

  // Exactly one of client_secret and client_secret_file is there, the first one if and only
  // if a client secret is configured.
  lemma OneClientSecret(lines: seq<TemplateLine>, o: Options, config: string)
    requires IsShipped(lines) && SingleLine(o) && config == Render(Joined(TextsOf(lines)), SettingsOf(o))
    ensures Lookup(config, CLIENT_SECRET) == if o.clientSecret == "" then Omitted else Value(o.clientSecret)
    ensures Lookup(config, CLIENT_SECRET_FILE)
            == if o.clientSecret == "" then Value(o.clientSecretFile) else Omitted
  {
    SecretSettings(o, SettingsOf(o));
    ShippedReadBack(lines, o, SettingsOf(o), CLIENT_SECRET);
    ShippedReadBack(lines, o, SettingsOf(o), CLIENT_SECRET_FILE);
  }
}
