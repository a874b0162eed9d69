/**
  The text parsers behind the settings fields: a comma-separated allow-list
  of injector keys and a single listener key for each hotkey.
*/
module KeyParse {
  import opened Wrappers
  import opened Text
  import opened Enigo
  import Rdev
  import KeyCodec

  /** The key a lower-case key name or alias denotes. */
  function NamedToken(t: string): Option<Key> {
    if t == "space" then Some(Space)
    else if t == "enter" || t == "return" then Some(Return)
    else if t == "tab" then Some(Tab)
    else if t == "esc" || t == "escape" then Some(Escape)
    else if t == "up" then Some(UpArrow)
    else if t == "down" then Some(DownArrow)
    else if t == "left" then Some(LeftArrow)
    else if t == "right" then Some(RightArrow)
    else if t == "shift" then Some(Shift)
    else if t == "ctrl" || t == "control" then Some(Control)
    else if t == "alt" then Some(Alt)
    else if t == "meta" || t == "win" || t == "cmd" then Some(Meta)
    else None
  }

  /** The same names as a table, one entry per name. */
  const KeyNames: seq<(string, Key)> := [
    ("space", Space), ("enter", Return), ("return", Return), ("tab", Tab),
    ("esc", Escape), ("escape", Escape), ("up", UpArrow), ("down", DownArrow),
    ("left", LeftArrow), ("right", RightArrow), ("shift", Shift),
    ("ctrl", Control), ("control", Control), ("alt", Alt),
    ("meta", Meta), ("win", Meta), ("cmd", Meta)]

  /** The name lookup is exactly the table: every entry is found, and
      whatever is found is an entry. */
  lemma NamedTokenTable(t: string)
    ensures forall i :: 0 <= i < |KeyNames| ==> NamedToken(KeyNames[i].0) == Some(KeyNames[i].1)
    ensures NamedToken(t).Some? ==> (t, NamedToken(t).value) in KeyNames
  {
    TableNamesFound();
    FoundNamesInTable(t);
  }

  lemma TableNamesFound()
    ensures forall i :: 0 <= i < |KeyNames| ==> NamedToken(KeyNames[i].0) == Some(KeyNames[i].1)
  {
    forall i | 0 <= i < |KeyNames|
      ensures NamedToken(KeyNames[i].0) == Some(KeyNames[i].1)
    {
      if i < 9 {
        SomeEntriesFound(i);
      } else {
        OtherEntriesFound(i);
      }
    }
  }

  lemma SomeEntriesFound(i: nat)
    requires i < 9
    ensures NamedToken(KeyNames[i].0) == Some(KeyNames[i].1)
  {
  }

  lemma OtherEntriesFound(i: nat)
    requires 9 <= i < |KeyNames|
    ensures NamedToken(KeyNames[i].0) == Some(KeyNames[i].1)
  {
  }

  lemma FoundNamesInTable(t: string)
    ensures NamedToken(t).Some? ==> (t, NamedToken(t).value) in KeyNames
  {
    var r := NamedToken(t);
    if r.Some? {
      var i :=
        if t == "space" then 0 else if t == "enter" then 1 else if t == "return" then 2
        else if t == "tab" then 3 else if t == "esc" then 4 else if t == "escape" then 5
        else if t == "up" then 6 else if t == "down" then 7 else if t == "left" then 8
        else if t == "right" then 9 else if t == "shift" then 10 else if t == "ctrl" then 11
        else if t == "control" then 12 else if t == "alt" then 13 else if t == "meta" then 14
        else if t == "win" then 15 else 16;
      assert KeyNames[i] == (t, r.value);
    }
  }

  /** `parse_key_token`: trim, lower-case, then a one-byte token is that
      character's key and a longer one must be a key name. */
  function ParseKeyToken(token: string): (r: Result<Key, string>)
    ensures r.Ok? ==> KeyCodec.Supported(r.value)
  {
    var t := ToLower(Trim(token));
    if t == [] then Err("empty token")
    else if Utf8Len(t) == 1 then Ok(Layout(t[0]))
    else
      match NamedToken(t)
      case Some(k) => Ok(k)
      case None => Err("unsupported key: " + t)
  }

  /** A token is rejected as empty iff it is blank; it is a character key iff
      it is one ASCII character after trimming (taken in lower case);
      otherwise it must be one of the names. */
  lemma TokenMeaning(token: string)
    ensures ParseKeyToken(token) == Err("empty token") <==> Trim(token) == []
    ensures ParseKeyToken(token).Ok? && ParseKeyToken(token).value.Layout? <==>
              |Trim(token)| == 1 && Trim(token)[0] as int < 0x80
    ensures |Trim(token)| == 1 && Trim(token)[0] as int < 0x80 ==>
              ParseKeyToken(token) == Ok(Layout(LowerChar(Trim(token)[0])))
    ensures |Trim(token)| > 1 || (|Trim(token)| == 1 && Trim(token)[0] as int >= 0x80) ==>
              ParseKeyToken(token) == match NamedToken(ToLower(Trim(token)))
                                      case Some(k) => Ok(k)
                                      case None => Err("unsupported key: " + ToLower(Trim(token)))
  {
    var t := ToLower(Trim(token));
    Utf8LenOne(t);
    if t != [] {
      assert t[0] == LowerChar(Trim(token)[0]);
      assert ("unsupported key: " + t)[0] != "empty token"[0];
    }
  }

  /** Surrounding whitespace and letter case do not matter. */
  lemma TokenNormalised(token: string)
    ensures ParseKeyToken(token) == ParseKeyToken(ToLower(Trim(token)))
  {
    NormalFormFixed(token);
  }

  /** Normalising a normalised token changes nothing. */
  lemma NormalFormFixed(token: string)
    ensures ToLower(Trim(ToLower(Trim(token)))) == ToLower(Trim(token))
  {
    var t := ToLower(Trim(token));
    TrimCase(Trim(token));
    TrimIdempotent(token);
    CaseChars(t);
    CaseChars(Trim(token));
    assert ToLower(t) == t;
  }

  /** Under the ASCII case mapping, a single character that takes more than
      one byte is not a key and is reported as written. */
  lemma MultiByteRejected(token: string)
    requires |Trim(token)| == 1 && Trim(token)[0] as int >= 0x80
    ensures ParseKeyToken(token) == Err("unsupported key: " + Trim(token))
  {
    var t := Trim(token);
    TokenMeaning(token);
    CaseChars(t);
    assert ToLower(t) == t;
    NamedTokenTable(t);
    KeyNamesWellFormed();
  }

  /** A padded capital letter is its lower-case character key. */
  lemma PaddedLetterExample()
    ensures ParseKeyToken(" A ") == Ok(Layout('a'))
  {
    assert TrimStart(" A ") == "A ";
    assert TrimEnd("A ") == "A";
    TokenMeaning(" A ");
  }

  /** A blank token is an empty token. */
  lemma BlankTokenExample()
    ensures ParseKeyToken("   ") == Err("empty token")
  {
    assert TrimStart("   ") == [];
    TokenMeaning("   ");
  }

  /** The names in the table are words of at least two small letters. */
  lemma KeyNamesWellFormed()
    ensures forall i :: 0 <= i < |KeyNames| ==> |KeyNames[i].0| > 1 && SmallLetters(KeyNames[i].0)
  {
  }

  /** Every key name and alias in the table is accepted as its key. */
  lemma NamesParse(i: nat)
    requires i < |KeyNames|
    ensures ParseKeyToken(KeyNames[i].0) == Ok(KeyNames[i].1)
  {
    var name := KeyNames[i].0;
    KeyNamesWellFormed();
    NamedTokenTable(name);
    SmallLettersFixed(name);
    TokenMeaning(name);
  }

  /** A multi-character token that is not a name is reported with its
      normalised text. */
  lemma UnknownName(token: string)
    requires |Trim(token)| > 1
    requires forall i :: 0 <= i < |KeyNames| ==> KeyNames[i].0 != ToLower(Trim(token))
    ensures ParseKeyToken(token) == Err("unsupported key: " + ToLower(Trim(token)))
  {
    NamedTokenTable(ToLower(Trim(token)));
    TokenMeaning(token);
  }

  /** A hotkey name is not an allow-list key. */
  lemma UnsupportedExample()
    ensures NamedToken("f9") == None
  {
  }

  // ---------------------------------------------------------------------------
  // The allow-list
  // ---------------------------------------------------------------------------

  /** The parts passed through `trim`, with the empty results dropped. */
  function NonEmptyBy(parts: seq<string>, trim: string -> string): (r: seq<string>)
    ensures forall i :: 0 <= i < |r| ==> r[i] != []
    decreases |parts|
  {
    if parts == [] then []
    else
      var f := trim(parts[|parts| - 1]);
      NonEmptyBy(parts[..|parts| - 1], trim) + (if f != [] then [f] else [])
  }

  /** The comma-separated fields, trimmed, with the blank ones dropped. */
  function Fields(parts: seq<string>): (r: seq<string>)
    ensures forall i :: 0 <= i < |r| ==> r[i] != []
  {
    NonEmptyBy(parts, Trim)
  }

  /** Every field parsed in order by `parse`, stopping at the first error. */
  function ParseAll<K>(fields: seq<string>, parse: string -> Result<K, string>): Result<seq<K>, string>
    decreases |fields|
  {
    if fields == [] then Ok([])
    else
      match ParseAll(fields[..|fields| - 1], parse)
      case Err(e) => Err(e)
      case Ok(keys) =>
        match parse(fields[|fields| - 1])
        case Err(e) => Err(e)
        case Ok(k) => Ok(keys + [k])
  }

  /** What `parse_allowed` returns. */
  function Allowed(input: string): Result<seq<Key>, string> {
    match ParseAll(Fields(Split(input, ',')), ParseKeyToken)
    case Err(e) => Err(e)
    case Ok(keys) => if keys == [] then Err("no keys provided") else Ok(keys)
  }

  /** `parse_allowed`. */
  method ParseAllowed(input: string) returns (r: Result<seq<Key>, string>)
    ensures r == Allowed(input)
  {
    var parts := Split(input, ',');
    var keys: seq<Key> := [];
    ghost var fields: seq<string> := [];
    var i := 0;
    while i < |parts|
      invariant 0 <= i <= |parts|
      invariant fields == Fields(parts[..i])
      invariant ParseAll(fields, ParseKeyToken) == Ok(keys)
    {
      var tok := Trim(parts[i]);
      FieldsStep(parts, i);
      if tok != [] {
        var k := ParseKeyToken(tok);
        ParseAllStep(fields, tok, ParseKeyToken);
        if k.Err? {
          AllowedAfterError(input, i);
          return Err(k.error);
        }
        keys := keys + [k.value];
        fields := fields + [tok];
      }
      i := i + 1;
    }
    assert parts[..i] == parts;
    if keys == [] {
      return Err("no keys provided");
    }
    return Ok(keys);
  }

  /** Once a prefix of the fields fails to parse, so does the whole list. */
  lemma AllowedAfterError(input: string, i: nat)
    requires i < |Split(input, ',')|
    requires ParseAll(Fields(Split(input, ',')[..i + 1]), ParseKeyToken).Err?
    ensures Allowed(input) == Err(ParseAll(Fields(Split(input, ',')[..i + 1]), ParseKeyToken).error)
  {
    var parts := Split(input, ',');
    FieldsPrefix(parts, i + 1);
    ParseAllErrExtends(Fields(parts[..i + 1]), Fields(parts[i + 1..]), ParseKeyToken);
    assert parts == parts[..i + 1] + parts[i + 1..];
  }

  lemma FieldsStep(parts: seq<string>, i: nat)
    requires i < |parts|
    ensures Fields(parts[..i + 1]) == Fields(parts[..i]) + (if Trim(parts[i]) != [] then [Trim(parts[i])] else [])
  {
    assert parts[..i + 1][..i] == parts[..i];
  }

  lemma ParseAllStep<K>(fields: seq<string>, f: string, parse: string -> Result<K, string>)
    ensures ParseAll(fields + [f], parse) ==
              match ParseAll(fields, parse)
              case Err(e) => Err(e)
              case Ok(keys) => (match parse(f) case Err(e) => Err(e) case Ok(k) => Ok(keys + [k]))
  {
    assert (fields + [f])[..|fields|] == fields;
  }

  lemma {:induction false} NonEmptyByPrefix(parts: seq<string>, n: nat, trim: string -> string)
    requires n <= |parts|
    ensures NonEmptyBy(parts, trim) == NonEmptyBy(parts[..n], trim) + NonEmptyBy(parts[n..], trim)
    decreases |parts|
  {
    if n == |parts| {
      assert parts[..n] == parts && parts[n..] == [];
    } else {
      var init := parts[..|parts| - 1];
      NonEmptyByPrefix(init, n, trim);
      assert init[..n] == parts[..n];
      assert parts[n..][..|parts[n..]| - 1] == init[n..];
      assert parts[n..][|parts[n..]| - 1] == parts[|parts| - 1];
    }
  }

  lemma FieldsPrefix(parts: seq<string>, n: nat)
    requires n <= |parts|
    ensures Fields(parts) == Fields(parts[..n]) + Fields(parts[n..])
  {
    NonEmptyByPrefix(parts, n, Trim);
  }

  lemma {:induction false} ParseAllErrExtends<K>(fields: seq<string>, more: seq<string>, parse: string -> Result<K, string>)
    requires ParseAll(fields, parse).Err?
    ensures ParseAll(fields + more, parse) == ParseAll(fields, parse)
    decreases |more|
  {
    if more != [] {
      var init := more[..|more| - 1];
      ParseAllErrExtends(fields, init, parse);
      assert (fields + more)[..|fields + more| - 1] == fields + init;
    } else {
      assert fields + more == fields;
    }
  }

  /** On success the keys are the fields' keys, one per field, in order. */
  lemma {:induction false} ParseAllOk<K>(fields: seq<string>, parse: string -> Result<K, string>)
    requires ParseAll(fields, parse).Ok?
    ensures |ParseAll(fields, parse).value| == |fields|
    ensures forall i :: 0 <= i < |fields| ==> parse(fields[i]) == Ok(ParseAll(fields, parse).value[i])
    decreases |fields|
  {
    if fields != [] {
      ParseAllOk(fields[..|fields| - 1], parse);
    }
  }

  /** On failure the error is that of the first field that does not parse. */
  lemma ParseAllErr<K>(fields: seq<string>, parse: string -> Result<K, string>)
    requires ParseAll(fields, parse).Err?
    ensures exists i :: 0 <= i < |fields| && parse(fields[i]) == Err(ParseAll(fields, parse).error)
              && forall j :: 0 <= j < i ==> parse(fields[j]).Ok?
  {
    var i := FirstErr(fields, parse);
  }

  /** The first field that does not parse, which is where the error comes from. */
  lemma {:induction false} FirstErr<K>(fields: seq<string>, parse: string -> Result<K, string>) returns (i: nat)
    requires ParseAll(fields, parse).Err?
    ensures i < |fields| && parse(fields[i]) == Err(ParseAll(fields, parse).error)
    ensures forall j :: 0 <= j < i ==> parse(fields[j]).Ok?
    decreases |fields|
  {
    var init := fields[..|fields| - 1];
    if ParseAll(init, parse).Err? {
      i := FirstErr(init, parse);
      assert fields[i] == init[i];
      forall j | 0 <= j < i ensures parse(fields[j]).Ok? {
        assert fields[j] == init[j];
      }
    } else {
      ParseAllOk(init, parse);
      i := |fields| - 1;
      forall j | 0 <= j < i ensures parse(fields[j]).Ok? {
        assert fields[j] == init[j];
      }
    }
  }

  /** The allow-list either names one key per non-blank field, in order, or
      reports the first bad field, or reports that no field was given. */
  lemma AllowedMeaning(input: string)
    ensures Allowed(input).Ok? ==>
              var fields := Fields(Split(input, ','));
              |Allowed(input).value| == |fields| > 0
              && forall i :: 0 <= i < |fields| ==> ParseKeyToken(fields[i]) == Ok(Allowed(input).value[i])
    ensures Allowed(input) == Err("no keys provided") <==> Fields(Split(input, ',')) == []
    ensures Allowed(input).Err? && Allowed(input).error != "no keys provided" ==>
              exists i :: 0 <= i < |Fields(Split(input, ','))|
                          && ParseKeyToken(Fields(Split(input, ','))[i]) == Err(Allowed(input).error)
  {
    var fields := Fields(Split(input, ','));
    ParseAllNotNoKeys(fields);
    if ParseAll(fields, ParseKeyToken).Ok? {
      ParseAllOk(fields, ParseKeyToken);
    } else {
      ParseAllErr(fields, ParseKeyToken);
    }
  }

  /** No token error reads "no keys provided". */
  lemma TokenErrorNotNoKeys(t: string)
    ensures ParseKeyToken(t) != Err("no keys provided")
  {
  }

  /** So no field list fails with it either: only an empty list gives it. */
  lemma {:induction false} ParseAllNotNoKeys(fields: seq<string>)
    ensures ParseAll(fields, ParseKeyToken) != Err("no keys provided")
    decreases |fields|
  {
    if fields != [] {
      ParseAllNotNoKeys(fields[..|fields| - 1]);
      TokenErrorNotNoKeys(fields[|fields| - 1]);
    }
  }

  /** The fields of the text `a, s ,,space`: padding is trimmed, the blank
      field is dropped, and each field names its key. */
  lemma AllowedExample()
    ensures ParseAll(Fields(["a", " s ", "", "space"]), ParseKeyToken) == Ok([Layout('a'), Layout('s'), Space])
  {
    ExampleFields();
    ExampleParse();
  }

  lemma ExampleTrims()
    ensures Trim("a") == "a" && Trim(" s ") == "s" && Trim("") == "" && Trim("space") == "space"
  {
    assert Trim("a") == "a";
    assert Trim(" s ") == "s";
    assert Trim("") == "";
    assert Trim("space") == "space";
  }

  lemma ExampleFields()
    ensures Fields(["a", " s ", "", "space"]) == ["a", "s", "space"]
  {
    ExampleTrims();
    ExampleFieldsHead();
    NonEmptyByStep(["a", " s "], "", Trim);
    NonEmptyByStep(["a", " s ", ""], "space", Trim);
    assert ["a", " s "] + [""] == ["a", " s ", ""];
    assert ["a", " s ", ""] + ["space"] == ["a", " s ", "", "space"];
  }

  lemma ExampleFieldsHead()
    ensures Fields(["a", " s "]) == ["a", "s"]
  {
    ExampleTrims();
    NonEmptyByStep([], "a", Trim);
    NonEmptyByStep(["a"], " s ", Trim);
    assert [] + ["a"] == ["a"];
    assert ["a"] + [" s "] == ["a", " s "];
  }

  lemma NonEmptyByStep(parts: seq<string>, x: string, trim: string -> string)
    ensures NonEmptyBy(parts + [x], trim) == NonEmptyBy(parts, trim) + (if trim(x) != [] then [trim(x)] else [])
  {
    assert (parts + [x])[..|parts|] == parts;
  }

  lemma ExampleParse()
    ensures ParseAll(["a", "s", "space"], ParseKeyToken) == Ok([Layout('a'), Layout('s'), Space])
  {
    ExampleTokens();
    ParseAllStep([], "a", ParseKeyToken);
    ParseAllStep(["a"], "s", ParseKeyToken);
    ParseAllStep(["a", "s"], "space", ParseKeyToken);
    assert [] + [Layout('a')] == [Layout('a')];
    assert [Layout('a')] + [Layout('s')] == [Layout('a'), Layout('s')];
    assert [Layout('a'), Layout('s')] + [Space] == [Layout('a'), Layout('s'), Space];
    assert [] + ["a"] == ["a"];
    assert ["a"] + ["s"] == ["a", "s"];
    assert ["a", "s"] + ["space"] == ["a", "s", "space"];
  }

  lemma ExampleTokens()
    ensures ParseKeyToken("a") == Ok(Layout('a'))
    ensures ParseKeyToken("s") == Ok(Layout('s'))
    ensures ParseKeyToken("space") == Ok(Space)
  {
    SmallLettersFixed("a");
    SmallLettersFixed("s");
    TokenMeaning("a");
    TokenMeaning("s");
    NamesParse(0);
  }

  // ---------------------------------------------------------------------------
  // Hotkeys
  // ---------------------------------------------------------------------------

  /** `F1` … `F12`, exactly. */
  function FunctionKey(u: string): Option<Rdev.FnNumber> {
    if u == "F1" then Some(1) else if u == "F2" then Some(2)
    else if u == "F3" then Some(3) else if u == "F4" then Some(4)
    else if u == "F5" then Some(5) else if u == "F6" then Some(6)
    else if u == "F7" then Some(7) else if u == "F8" then Some(8)
    else if u == "F9" then Some(9) else if u == "F10" then Some(10)
    else if u == "F11" then Some(11) else if u == "F12" then Some(12)
    else None
  }

  /** `parse_rdev_key`: trim, upper-case, then a function key, `SPACE`, or a
      single letter. */
  function ParseRdevKey(input: string): (r: Option<Rdev.Key>)
    ensures r.Some? ==> r.value.F? || r.value.Space? || r.value.KeyLetter?
  {
    var u := ToUpper(Trim(input));
    match FunctionKey(u)
    case Some(n) => Some(Rdev.F(n))
    case None =>
      if u == "SPACE" then Some(Rdev.Space)
      else if Utf8Len(u) == 1 && 'A' <= u[0] <= 'Z' then Some(Rdev.KeyLetter(u[0]))
      else None
  }

  /** The canonical text of a hotkey the parser accepts. */
  function RdevName(k: Rdev.Key): string
    requires k.F? || k.Space? || k.KeyLetter?
  {
    match k
    case F(n) => "F" + NatToString(n)
    case Space => "SPACE"
    case KeyLetter(c) => [c]
  }

  /** Every key the parser can produce has a name that parses back to it, in
      any case and with any surrounding whitespace. */
  lemma RdevRoundTrip(k: Rdev.Key)
    requires k.F? || k.Space? || k.KeyLetter?
    ensures ParseRdevKey(RdevName(k)) == Some(k)
    ensures ParseRdevKey(" " + ToLower(RdevName(k)) + " ") == Some(k)
  {
    RdevNameParses(k);
    RdevNameSolid(k);
    PaddedLowerParses(RdevName(k));
  }

  lemma RdevNameParses(k: Rdev.Key)
    requires k.F? || k.Space? || k.KeyLetter?
    ensures ParseRdevKey(RdevName(k)) == Some(k)
  {
    match k {
      case F(n) => FunctionKeyNames(n);
      case Space => SpaceName();
      case KeyLetter(c) => LetterName(c);
    }
  }

  /** `SPACE` names the space bar. */
  lemma SpaceName()
    ensures ParseRdevKey("SPACE") == Some(Rdev.Space)
  {
    assert Trim("SPACE") == "SPACE";
    assert ToUpper("SPACE") == "SPACE";
  }

  /** A hotkey name neither starts nor ends with whitespace. */
  lemma RdevNameSolid(k: Rdev.Key)
    requires k.F? || k.Space? || k.KeyLetter?
    ensures var name := RdevName(k); name != [] && !IsWhitespace(name[0]) && !IsWhitespace(name[|name| - 1])
  {
    if k.F? {
      var digits := NatToString(k.n);
      assert RdevName(k)[|RdevName(k)| - 1] == digits[|digits| - 1];
    }
  }

  /** Padding a name with spaces and lower-casing it does not change how it
      parses. */
  lemma PaddedLowerParses(name: string)
    requires name != [] && !IsWhitespace(name[0]) && !IsWhitespace(name[|name| - 1])
    ensures ParseRdevKey(" " + ToLower(name) + " ") == ParseRdevKey(name)
  {
    var p := " " + name + " ";
    TrimPadded(name);
    LowerPadded(name);
    RdevCaseInsensitive(p);
  }

  /** `F1` … `F12` name the function keys. */
  lemma FunctionKeyNames(n: Rdev.FnNumber)
    ensures ParseRdevKey(RdevName(Rdev.F(n))) == Some(Rdev.F(n))
  {
    if n <= 3 {
      FunctionKeyNames1To3(n);
    } else if n <= 6 {
      FunctionKeyNames4To6(n);
    } else if n <= 9 {
      FunctionKeyNames7To9(n);
    } else {
      FunctionKeyNames10To12(n);
    }
  }

  lemma FunctionKeyNames1To3(n: Rdev.FnNumber)
    requires n <= 3
    ensures ParseRdevKey(RdevName(Rdev.F(n))) == Some(Rdev.F(n))
  {
    match n {
      case 1 => FunctionKeyText("F1", 1);
      case 2 => FunctionKeyText("F2", 2);
      case 3 => FunctionKeyText("F3", 3);
    }
  }

  lemma FunctionKeyNames4To6(n: Rdev.FnNumber)
    requires 4 <= n <= 6
    ensures ParseRdevKey(RdevName(Rdev.F(n))) == Some(Rdev.F(n))
  {
    match n {
      case 4 => FunctionKeyText("F4", 4);
      case 5 => FunctionKeyText("F5", 5);
      case 6 => FunctionKeyText("F6", 6);
    }
  }

  lemma FunctionKeyNames7To9(n: Rdev.FnNumber)
    requires 7 <= n <= 9
    ensures ParseRdevKey(RdevName(Rdev.F(n))) == Some(Rdev.F(n))
  {
    match n {
      case 7 => FunctionKeyText("F7", 7);
      case 8 => FunctionKeyText("F8", 8);
      case 9 => FunctionKeyText("F9", 9);
    }
  }

  lemma FunctionKeyNames10To12(n: Rdev.FnNumber)
    requires n >= 10
    ensures ParseRdevKey(RdevName(Rdev.F(n))) == Some(Rdev.F(n))
  {
    match n {
      case 10 => FunctionKeyText("F10", 10);
      case 11 => FunctionKeyText("F11", 11);
      case 12 => FunctionKeyText("F12", 12);
    }
  }

  lemma FunctionKeyText(u: string, n: Rdev.FnNumber)
    requires Trim(u) == u && ToUpper(u) == u && FunctionKey(u) == Some(n)
    requires u == RdevName(Rdev.F(n))
    ensures ParseRdevKey(u) == Some(Rdev.F(n))
  {
  }

  /** A capital letter names its letter key. */
  lemma LetterName(c: Rdev.Upper)
    ensures ParseRdevKey([c]) == Some(Rdev.KeyLetter(c))
  {
    assert TrimStart([c]) == [c];
    assert TrimEnd([c]) == [c];
    assert ToUpper([c]) == [UpperChar(c)] + ToUpper([]);
    assert Utf8Len([c]) == 1;
  }

  /** Hotkey text is read without regard to surrounding whitespace, nor to
      case under the ASCII case mapping. */
  lemma RdevCaseInsensitive(input: string)
    ensures ParseRdevKey(ToLower(input)) == ParseRdevKey(input)
    ensures ParseRdevKey(Trim(input)) == ParseRdevKey(input)
  {
    TrimCase(input);
    CaseFolding(Trim(input));
    TrimIdempotent(input);
  }
}
