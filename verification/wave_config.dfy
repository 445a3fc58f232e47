/** The wave-file configuration of `wavefile.c`: lines of `key = value`
    that bind a wave asset, by name, to the file that holds its samples. */
module WaveConfig {
  import opened IpServer

  /** The delimiters `strtok_r` is given: space, tab and newline. */
  predicate IsDelim(ch: char) {
    ch == ' ' || ch == '\t' || ch == '\n'
  }

  /** `isspace` in the C locale: the delimiters plus vertical tab, form feed
      and carriage return. */
  predicate IsSpace(ch: char) {
    IsDelim(ch) || ch == 11 as char || ch == 12 as char || ch == '\r'
  }

  /** A token as `strtok_r` returns it: non-empty and free of delimiters. */
  predicate IsWord(w: string) {
    |w| > 0 && forall i :: 0 <= i < |w| ==> !IsDelim(w[i])
  }

  /** The length of the run of non-delimiters at the front of `s`. */
  function WordLength(s: string): (n: nat)
    ensures n <= |s|
    ensures forall i :: 0 <= i < n ==> !IsDelim(s[i])
    ensures n < |s| ==> IsDelim(s[n])
  {
    if |s| == 0 || IsDelim(s[0]) then 0 else 1 + WordLength(s[1..])
  }

  /** The successive results of `strtok_r(.., " \t\n", ..)` on a line. */
  function Tokens(s: string): (ts: seq<string>)
    ensures forall k :: 0 <= k < |ts| ==> IsWord(ts[k])
    decreases |s|
  {
    if |s| == 0 then []
    else if IsDelim(s[0]) then Tokens(s[1..])
    else
      var n := WordLength(s);
      [s[..n]] + Tokens(s[n..])
  }

  /** The words joined by single spaces. */
  function Unwords(ws: seq<string>): string {
    if |ws| == 0 then ""
    else if |ws| == 1 then ws[0]
    else ws[0] + " " + Unwords(ws[1..])
  }

  lemma {:induction false} WordLengthOfWord(w: string, rest: string)
    requires IsWord(w) && (|rest| == 0 || IsDelim(rest[0]))
    ensures WordLength(w + rest) == |w|
    decreases |w|
  {
    assert (w + rest)[1..] == w[1..] + rest;
    if |w| > 1 {
      WordLengthOfWord(w[1..], rest);
    }
  }

  /** A word followed by a delimiter (or nothing) is the next token. */
  lemma TokensOfWord(w: string, rest: string)
    requires IsWord(w) && (|rest| == 0 || IsDelim(rest[0]))
    ensures Tokens(w + rest) == [w] + Tokens(rest)
  {
    WordLengthOfWord(w, rest);
    assert (w + rest)[..|w|] == w;
    assert (w + rest)[|w|..] == rest;
  }

  /** Delimiters in front of a line do not change its tokens. */
  lemma TokensSkipDelim(d: char, s: string)
    requires IsDelim(d)
    ensures Tokens([d] + s) == Tokens(s)
  {
    assert ([d] + s)[1..] == s;
  }

  /** Splitting words joined by spaces gives the words back. */
  lemma {:induction false} TokensUnwords(ws: seq<string>)
    requires forall k :: 0 <= k < |ws| ==> IsWord(ws[k])
    ensures Tokens(Unwords(ws)) == ws
  {
    if |ws| == 1 {
      TokensOfWord(ws[0], "");
      assert ws[0] + "" == ws[0];
    } else if |ws| > 1 {
      var tail := Unwords(ws[1..]);
      assert ws[0] + " " + tail == ws[0] + ([' '] + tail);
      TokensOfWord(ws[0], [' '] + tail);
      TokensSkipDelim(' ', tail);
      TokensUnwords(ws[1..]);
    }
  }

  /** The position of the first `ch` in `s` (`strchr`). */
  function IndexOf(s: string, ch: char): (r: Option<nat>)
    ensures r.None? <==> ch !in s
    ensures r.Some? ==> r.value < |s| && s[r.value] == ch && ch !in s[..r.value]
  {
    if |s| == 0 then None
    else if s[0] == ch then Some(0)
    else match IndexOf(s[1..], ch)
      case None => None
      case Some(i) => assert s[1..][..i] == s[1..i + 1]; Some(i + 1)
  }

  /** What one configuration line amounts to. */
  datatype Line =
    | Skipped                          // blank, or a comment
    | Setting(key: string, value: string)
    | NoValue                          // an `=` with nothing after it: nothing happens
    | MissingEquals(key: string)       // fatal

  /** A value usable as it stands: `*value != '\0' && !isspace(*value)`. */
  predicate Usable(value: string) {
    |value| > 0 && !IsSpace(value[0])
  }

  /** The line grammar of `wavefile_load_config`. The first token is the key,
      or `key=...`; the value is what follows the first `=`, in the same
      token or the next one. */
  function ParseLine(line: string): Line {
    var ts := Tokens(line);
    if |ts| == 0 || ts[0][0] == '#' then Skipped
    else
      var tok := ts[0];
      match IndexOf(tok, '=')
      case Some(e) =>
        if Usable(tok[e + 1..]) then Setting(tok[..e], tok[e + 1..])
        else if |ts| > 1 then Setting(tok[..e], ts[1])
        else NoValue
      case None =>
        if |ts| == 1 || ts[1][0] != '=' then MissingEquals(tok)
        else if Usable(ts[1][1..]) then Setting(tok, ts[1][1..])
        else if |ts| > 2 then Setting(tok, ts[2])
        else NoValue
  }

  /** A line whose characters are all delimiters is skipped. */
  lemma {:induction false} BlankLine(line: string)
    requires forall i :: 0 <= i < |line| ==> IsDelim(line[i])
    ensures Tokens(line) == [] && ParseLine(line) == Skipped
    decreases |line|
  {
    if |line| > 0 {
      BlankLine(line[1..]);
    }
  }

  /** A line whose first token starts with `#` is skipped, however it is indented. */
  lemma CommentLine(indent: string, w: string, rest: string)
    requires forall i :: 0 <= i < |indent| ==> IsDelim(indent[i])
    requires IsWord(w) && w[0] == '#' && (|rest| == 0 || IsDelim(rest[0]))
    ensures ParseLine(indent + w + rest) == Skipped
  {
    assert indent + w + rest == indent + (w + rest);
    IndentedTokens(indent, w + rest);
    TokensOfWord(w, rest);
  }

  lemma {:induction false} IndentedTokens(indent: string, s: string)
    requires forall i :: 0 <= i < |indent| ==> IsDelim(indent[i])
    ensures Tokens(indent + s) == Tokens(s)
    decreases |indent|
  {
    if |indent| > 0 {
      assert indent + s == [indent[0]] + (indent[1..] + s);
      TokensSkipDelim(indent[0], indent[1..] + s);
      IndentedTokens(indent[1..], s);
    } else {
      assert indent + s == s;
    }
  }

  /** A key as the grammar can bind it: one token, no `=`, not a comment. */
  predicate IsKey(k: string) {
    IsWord(k) && '=' !in k && k[0] != '#'
  }

  lemma IndexOfAfterKey(k: string, s: string)
    requires '=' !in k
    ensures IndexOf(k + "=" + s, '=') == Some(|k|)
  {
    var line := k + "=" + s;
    assert line[|k|] == '=';
    assert line[..|k|] == k;
  }

  /** `k=v`, `k= v`, `k =v` and `k = v` all bind `k` to `v`. */
  lemma SettingForms(k: string, v: string)
    requires IsKey(k) && IsWord(v) && !IsSpace(v[0])
    ensures ParseLine(k + "=" + v) == Setting(k, v)
    ensures ParseLine(k + "= " + v) == Setting(k, v)
    ensures ParseLine(k + " =" + v) == Setting(k, v)
    ensures ParseLine(k + " = " + v) == Setting(k, v)
  {
    SettingJoined(k, v);
    SettingSpaceAfter(k, v);
    SettingSpaceBefore(k, v);
    SettingSpaced(k, v);
  }

  lemma SettingJoined(k: string, v: string)
    requires IsKey(k) && IsWord(v) && !IsSpace(v[0])
    ensures ParseLine(k + "=" + v) == Setting(k, v)
  {
    var kv := k + "=" + v;
    TokensUnwords([kv]);
    IndexOfAfterKey(k, v);
    assert kv[|k| + 1..] == v && kv[..|k|] == k;
  }

  lemma SettingSpaceAfter(k: string, v: string)
    requires IsKey(k) && IsWord(v)
    ensures ParseLine(k + "= " + v) == Setting(k, v)
  {
    var ke := k + "=";
    assert k + "= " + v == Unwords([ke, v]);
    TokensUnwords([ke, v]);
    IndexOfAfterKey(k, "");
    assert ke == k + "=" + "";
    assert ke[|k| + 1..] == "" && ke[..|k|] == k;
  }

  lemma SettingSpaceBefore(k: string, v: string)
    requires IsKey(k) && IsWord(v) && !IsSpace(v[0])
    ensures ParseLine(k + " =" + v) == Setting(k, v)
  {
    var ev := "=" + v;
    assert k + " =" + v == Unwords([k, ev]);
    TokensUnwords([k, ev]);
    assert ev[1..] == v;
  }

  lemma SettingSpaced(k: string, v: string)
    requires IsKey(k) && IsWord(v)
    ensures ParseLine(k + " = " + v) == Setting(k, v)
  {
    var ws := [k, "=", v];
    assert ws[1..] == ["=", v] && ws[1..][1..] == [v];
    assert Unwords(ws[1..]) == "=" + " " + v;
    assert k + " = " + v == Unwords(ws);
    TokensUnwords(ws);
    assert "="[1..] == "";
  }

  /** A key alone on its line, or followed by anything but `=`, is an error. */
  lemma MissingEqualsForms(k: string, w: string)
    requires IsKey(k) && IsWord(w) && w[0] != '='
    ensures ParseLine(k) == MissingEquals(k)
    ensures ParseLine(k + " " + w) == MissingEquals(k)
  {
    TokensUnwords([k]);
    assert k + " " + w == Unwords([k, w]);
    TokensUnwords([k, w]);
  }

  /** `k=` or `k =` with nothing after it binds nothing and is no error,
      whatever `k` is. */
  lemma DanglingEquals(k: string)
    requires IsKey(k)
    ensures ParseLine(k + "=") == NoValue
    ensures ParseLine(k + " =") == NoValue
  {
    DanglingJoined(k);
    DanglingSpaced(k);
  }

  lemma DanglingJoined(k: string)
    requires IsKey(k)
    ensures ParseLine(k + "=") == NoValue
  {
    var ke := k + "=";
    TokensUnwords([ke]);
    IndexOfAfterKey(k, "");
    assert ke == k + "=" + "";
    assert ke[|k| + 1..] == "";
  }

  lemma DanglingSpaced(k: string)
    requires IsKey(k)
    ensures ParseLine(k + " =") == NoValue
  {
    assert k + " =" == Unwords([k, "="]);
    TokensUnwords([k, "="]);
    assert "="[1..] == "";
  }

  /** The asset names `wavefile_handle_setting` accepts. */
  function NameOf(c: WavCtrl): string {
    match c
    case WVhfL => "VHF_L"   case WVhfC => "VHF_C"   case WVhfR => "VHF_R"
    case WCab => "CAB"      case WPa => "PA"        case WHfL => "HF_L"
    case WHfR => "HF_R"     case WSat1 => "SAT_1"   case WSat2 => "SAT_2"
    case WSpkr => "SPKR"    case WVorL => "VOR_L"   case WVorR => "VOR_R"
    case WAdfL => "ADF_L"   case WAdfR => "ADF_R"   case WAppL => "APP_L"
    case WAppR => "APP_R"   case WAppMkr => "APP_MKR"
  }

  /** `wavefile_handle_setting`'s chain of `strcmp`s: the asset a key names. */
  function CtrlOfName(key: string): Option<WavCtrl> {
    if key == "VHF_L" then Some(WVhfL)
    else if key == "VHF_C" then Some(WVhfC)
    else if key == "VHF_R" then Some(WVhfR)
    else if key == "CAB" then Some(WCab)
    else if key == "PA" then Some(WPa)
    else if key == "HF_L" then Some(WHfL)
    else if key == "HF_R" then Some(WHfR)
    else if key == "SAT_1" then Some(WSat1)
    else if key == "SAT_2" then Some(WSat2)
    else if key == "SPKR" then Some(WSpkr)
    else if key == "VOR_L" then Some(WVorL)
    else if key == "VOR_R" then Some(WVorR)
    else if key == "ADF_L" then Some(WAdfL)
    else if key == "ADF_R" then Some(WAdfR)
    else if key == "APP_L" then Some(WAppL)
    else if key == "APP_R" then Some(WAppR)
    else if key == "APP_MKR" then Some(WAppMkr)
    else None
  }

  /** Every asset has exactly one name. */
  lemma NameRoundTrip(c: WavCtrl, key: string)
    ensures CtrlOfName(NameOf(c)) == Some(c)
    ensures CtrlOfName(key) == Some(c) ==> key == NameOf(c)
  {
    NameFound(c);
    NameUnique(c, key);
  }

  lemma NameUnique(c: WavCtrl, key: string)
    ensures CtrlOfName(key) == Some(c) ==> key == NameOf(c)
  {
    if CtrlOfName(key).Some? {
      var d := CtrlOfName(key).value;
      assert key == NameOf(d);
    }
  }

  lemma NameFound(c: WavCtrl)
    ensures CtrlOfName(NameOf(c)) == Some(c)
  {
    match c
    case WVhfL =>   case WVhfC =>   case WVhfR =>   case WCab =>    case WPa =>
    case WHfL =>    case WHfR =>    case WSat1 =>   case WSat2 =>   case WSpkr =>
    case WVorL =>   case WVorR =>   case WAdfL =>   case WAdfR =>   case WAppL =>
    case WAppR =>   case WAppMkr =>
  }

  /** Why loading stopped: the 1-based number of the offending line. */
  datatype ConfigError = MissingEqualsAt(line: nat) | UnknownKeyAt(line: nat)

  /** The outcome of `wavefile_load_config`: the file bound to each named
      asset, or the error on which the server exits. */
  datatype Config = Loaded(files: map<WavCtrl, string>) | Failed(err: ConfigError)

  /** What handling one line does to the load. */
  datatype Effect = NoEffect | Bind(ctrl: WavCtrl, file: string) | MissingEqualsError | UnknownKeyError

  /** A line's effect: a setting goes through `wavefile_handle_setting`,
      which exits on a name it does not know. */
  function EffectOf(line: Line): (e: Effect)
    ensures e.Bind? <==> line.Setting? && CtrlOfName(line.key).Some?
    ensures e.Bind? ==> CtrlOfName(line.key) == Some(e.ctrl) && e.file == line.value
    ensures e.MissingEqualsError? <==> line.MissingEquals?
    ensures e.UnknownKeyError? <==> line.Setting? && CtrlOfName(line.key).None?
  {
    match line
    case Skipped => NoEffect
    case NoValue => NoEffect
    case MissingEquals(_) => MissingEqualsError
    case Setting(key, value) =>
      match CtrlOfName(key)
      case None => UnknownKeyError
      case Some(c) => Bind(c, value)
  }

  /** The effect of every line of a file. */
  function Effects(lines: seq<string>): (es: seq<Effect>)
    ensures |es| == |lines|
  {
    if |lines| == 0 then [] else [EffectOf(ParseLine(lines[0]))] + Effects(lines[1..])
  }

  /** Entry `i` of `Effects(lines)` is the effect of line `i`. */
  lemma {:induction false} EffectsAt(lines: seq<string>, i: nat)
    requires i < |lines|
    ensures Effects(lines)[i] == EffectOf(ParseLine(lines[i]))
  {
    if i > 0 {
      EffectsAt(lines[1..], i - 1);
      assert lines[1..][i - 1] == lines[i];
    }
  }

  predicate IsFatal(e: Effect) {
    e.MissingEqualsError? || e.UnknownKeyError?
  }

  predicate BindsCtrl(e: Effect, c: WavCtrl) {
    e.Bind? && e.ctrl == c
  }

  /** Some effect of `es` binds the asset `c`. */
  predicate AnyBinds(es: seq<Effect>, c: WavCtrl) {
    exists i :: 0 <= i < |es| && BindsCtrl(es[i], c)
  }

  /** `wavefile_load_config` from line `k` on, with the bindings made so far:
      a binding overwrites the slot of its asset, the first fatal line ends
      the load. */
  function Apply(es: seq<Effect>, k: nat, files: map<WavCtrl, string>): Config
    requires k <= |es|
    decreases |es| - k
  {
    if k == |es| then Loaded(files)
    else match es[k]
      case NoEffect => Apply(es, k + 1, files)
      case Bind(c, file) => Apply(es, k + 1, files[c := file])
      case MissingEqualsError => Failed(MissingEqualsAt(k + 1))
      case UnknownKeyError => Failed(UnknownKeyAt(k + 1))
  }

  /** `wavefile_load_config` over the lines of the file, as `fgets` delivers them. */
  function LoadConfig(lines: seq<string>): Config {
    Apply(Effects(lines), 0, map[])
  }

  /** The load fails exactly when a fatal line follows; the error names the
      first one. */
  lemma {:induction false} ApplyFails(es: seq<Effect>, k: nat, files: map<WavCtrl, string>)
    requires k <= |es|
    ensures Apply(es, k, files).Failed? <==> exists i :: k <= i < |es| && IsFatal(es[i])
    ensures Apply(es, k, files).Failed? ==>
      var i := Apply(es, k, files).err.line - 1;
      && k <= i < |es| && IsFatal(es[i])
      && (forall j :: k <= j < i ==> !IsFatal(es[j]))
      && (Apply(es, k, files).err.MissingEqualsAt? <==> es[i].MissingEqualsError?)
    decreases |es| - k
  {
    if k < |es| {
      match es[k] {
        case NoEffect => ApplyFails(es, k + 1, files);
        case Bind(c, file) => ApplyFails(es, k + 1, files[c := file]);
        case MissingEqualsError =>
        case UnknownKeyError =>
      }
    }
  }

  /** A successful load binds exactly the assets some line binds, each to the
      file of the last line that binds it. */
  lemma {:induction false} ApplyBinds(es: seq<Effect>, k: nat, files: map<WavCtrl, string>, c: WavCtrl)
    requires k <= |es|
    requires Apply(es, k, files).Loaded?
    ensures var m := Apply(es, k, files).files;
      && (c in m <==> c in files || exists i :: k <= i < |es| && BindsCtrl(es[i], c))
      && ((forall i :: k <= i < |es| ==> !BindsCtrl(es[i], c)) ==> (c in m <==> c in files) && (c in m ==> m[c] == files[c]))
      && (forall i :: k <= i < |es| && BindsCtrl(es[i], c) && (forall j :: i < j < |es| ==> !BindsCtrl(es[j], c))
            ==> m[c] == es[i].file)
    decreases |es| - k
  {
    if k < |es| {
      match es[k] {
        case NoEffect => ApplyBinds(es, k + 1, files, c);
        case Bind(d, file) => ApplyBinds(es, k + 1, files[d := file], c);
      }
    }
  }

  /** `Apply` from the empty map: it fails exactly when some effect is fatal,
      at the first such effect; otherwise it binds each asset some effect
      binds to the file of the last effect binding it, and no other asset. */
  lemma ApplyFromEmpty(es: seq<Effect>, c: WavCtrl)
    ensures Apply(es, 0, map[]).Failed? <==> exists i :: 0 <= i < |es| && IsFatal(es[i])
    ensures Apply(es, 0, map[]).Failed? ==>
      var i := Apply(es, 0, map[]).err.line - 1;
      0 <= i < |es| && IsFatal(es[i]) && forall j :: 0 <= j < i ==> !IsFatal(es[j])
    ensures Apply(es, 0, map[]).Loaded? ==>
      var m := Apply(es, 0, map[]).files;
      && (c in m <==> AnyBinds(es, c))
      && (forall i :: 0 <= i < |es| && BindsCtrl(es[i], c) && (forall j :: i < j < |es| ==> !BindsCtrl(es[j], c))
            ==> m[c] == es[i].file)
  {
    var none: map<WavCtrl, string> := map[];
    ApplyFails(es, 0, none);
    if Apply(es, 0, none).Loaded? {
      ApplyBinds(es, 0, none, c);
      assert c !in none;
    }
  }

  /** Loading fails exactly when some line is fatal, at the first such line;
      otherwise each asset some line binds is bound to the file of the last
      line binding it, and no other asset is bound. */
  lemma LoadConfigSpec(lines: seq<string>, c: WavCtrl)
    ensures var es := Effects(lines);
      LoadConfig(lines).Failed? <==> exists i :: 0 <= i < |es| && IsFatal(es[i])
    ensures var es := Effects(lines);
      LoadConfig(lines).Failed? ==>
        var i := LoadConfig(lines).err.line - 1;
        0 <= i < |es| && IsFatal(es[i]) && forall j :: 0 <= j < i ==> !IsFatal(es[j])
    ensures var es := Effects(lines);
      LoadConfig(lines).Loaded? ==>
        var m := LoadConfig(lines).files;
        && (c in m <==> AnyBinds(es, c))
        && (forall i :: 0 <= i < |es| && BindsCtrl(es[i], c) && (forall j :: i < j < |es| ==> !BindsCtrl(es[j], c))
              ==> m[c] == es[i].file)
  {
    var es := Effects(lines);
    ApplyFromEmpty(es, c);
  }

  /** A setting whose name is unknown is fatal. */
  lemma UnknownKeyIsFatal(k: string, v: string)
    requires IsKey(k) && IsWord(v) && !IsSpace(v[0]) && CtrlOfName(k).None?
    ensures EffectOf(ParseLine(k + "=" + v)) == UnknownKeyError
    ensures LoadConfig([k + "=" + v]) == Failed(UnknownKeyAt(1))
  {
    SettingJoined(k, v);
    assert [k + "=" + v][1..] == [];
    assert Effects([k + "=" + v]) == [UnknownKeyError];
  }

  /** A line naming nothing after its `=` is not even looked up: it binds
      nothing and is no error, known name or not. */
  lemma DanglingIsHarmless(k: string)
    requires IsKey(k)
    ensures EffectOf(ParseLine(k + " =")) == NoEffect
    ensures LoadConfig([k + " ="]) == Loaded(map[])
  {
    DanglingSpaced(k);
    assert [k + " ="][1..] == [];
    assert Effects([k + " ="]) == [NoEffect];
    assert Apply([NoEffect], 1, map[]) == Loaded(map[]);
  }
}
