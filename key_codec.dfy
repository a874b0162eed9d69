/**
  The recorder's key translation (src/recorder.rs): the listener-to-injector
  key mapping `map_key`, and the tagged-string codec `key_to_string` /
  `string_to_key` used for persistence and for per-key offsets.
*/
module KeyCodec {
  import opened Wrappers
  import opened Text
  import opened Enigo
  import Rdev

  /** The keys the recorder listens for: seven home-row letters plus the named keys. */
  function MapKey(raw: Rdev.Key): (r: Option<Key>)
    ensures r.Some? ==> Supported(r.value)
    ensures raw.KeyLetter? ==>
      (r.Some? <==> raw.letter in "ASDFJKL") && (r.Some? ==> r.value == Layout(LowerChar(raw.letter)))
    ensures raw.Num? || raw.F? || raw.Backspace? || raw.Unlisted? ==> r == None
  {
    match raw
    case KeyLetter(c) =>
      if c == 'A' then Some(Layout('a'))
      else if c == 'S' then Some(Layout('s'))
      else if c == 'D' then Some(Layout('d'))
      else if c == 'F' then Some(Layout('f'))
      else if c == 'J' then Some(Layout('j'))
      else if c == 'K' then Some(Layout('k'))
      else if c == 'L' then Some(Layout('l'))
      else None
    case Space => Some(Space)
    case Return => Some(Return)
    case Tab => Some(Tab)
    case Escape => Some(Escape)
    case UpArrow => Some(UpArrow)
    case DownArrow => Some(DownArrow)
    case LeftArrow => Some(LeftArrow)
    case RightArrow => Some(RightArrow)
    case ShiftLeft => Some(Shift)
    case ShiftRight => Some(Shift)
    case ControlLeft => Some(Control)
    case ControlRight => Some(Control)
    case Alt => Some(Alt)
    case AltGr => Some(Alt)
    case MetaLeft => Some(Meta)
    case MetaRight => Some(Meta)
    case _ => None
  }

  /** The twelve named keys the codec spells out by name. */
  predicate Named(k: Key) {
    k.Space? || k.Return? || k.Tab? || k.Escape? || k.UpArrow? || k.DownArrow?
    || k.LeftArrow? || k.RightArrow? || k.Shift? || k.Control? || k.Alt? || k.Meta?
  }

  /** Keys that survive a trip through the codec. */
  predicate Supported(k: Key) {
    k.Layout? || Named(k)
  }

  /** The name of a named key, as the codec writes it. */
  function Name(k: Key): string
    requires Named(k)
  {
    match k
    case Space => "Space"
    case Return => "Return"
    case Tab => "Tab"
    case Escape => "Escape"
    case UpArrow => "UpArrow"
    case DownArrow => "DownArrow"
    case LeftArrow => "LeftArrow"
    case RightArrow => "RightArrow"
    case Shift => "Shift"
    case Control => "Control"
    case Alt => "Alt"
    case Meta => "Meta"
  }

  /** The derived `Debug` text of a key's variant name (no payload): the name
      itself for named keys, the carried name for unlisted ones. */
  function VariantName(k: Key): string
    requires !k.Layout?
  {
    if Named(k) then Name(k)
    else if k.Backspace? then "Backspace"
    else k.name
  }

  /** `key_to_string`: `char:<c>` for a character key, the name for a named
      key, `other:<Debug text>` for anything else. */
  function KeyToString(k: Key): string
  {
    if k.Layout? then "char:" + [k.c]
    else if Named(k) then Name(k)
    else "other:" + VariantName(k)
  }

  /** `string_to_key`: a `char:` tag decodes from the first character after
      it; a name decodes to its key; everything else is unknown. */
  function StringToKey(s: string): Option<Key>
  {
    if StartsWith(s, "char:") && |s| > 5 then Some(Layout(s[5]))
    else if s == "Space" then Some(Space)
    else if s == "Return" then Some(Return)
    else if s == "Tab" then Some(Tab)
    else if s == "Escape" then Some(Escape)
    else if s == "UpArrow" then Some(UpArrow)
    else if s == "DownArrow" then Some(DownArrow)
    else if s == "LeftArrow" then Some(LeftArrow)
    else if s == "RightArrow" then Some(RightArrow)
    else if s == "Shift" then Some(Shift)
    else if s == "Control" then Some(Control)
    else if s == "Alt" then Some(Alt)
    else if s == "Meta" then Some(Meta)
    else None
  }

  /** Decoding inverts encoding on every supported key. */
  lemma CodecRoundTrip(k: Key)
    requires Supported(k)
    ensures StringToKey(KeyToString(k)) == Some(k)
  {
    if k.Layout? {
      assert StartsWith("char:" + [k.c], "char:");
    } else {
      var s := Name(k);
      assert s[0] != 'c';
    }
  }

  /** Every other key is written with an `other:` tag, which decodes to nothing. */
  lemma UnsupportedIsOther(k: Key)
    requires !Supported(k)
    ensures StartsWith(KeyToString(k), "other:")
    ensures StringToKey(KeyToString(k)) == None
  {
    var s := KeyToString(k);
    assert s == "other:" + VariantName(k);
    assert s[0] == 'o';
    assert !StartsWith(s, "char:");
  }

  /** A `char:` tag decodes from its first character alone; the rest is ignored. */
  lemma CharTagFirstCharOnly(rest: string)
    ensures StringToKey("char:" + rest) == if rest == [] then None else Some(Layout(rest[0]))
  {
    var s := "char:" + rest;
    assert StartsWith(s, "char:");
    if rest == [] {
      assert s == "char:";
    }
  }

  /** Decoding is the exact inverse of encoding on the strings it accepts that
      encoding can produce: distinct supported keys never share a tag. */
  lemma EncodingInjective(k1: Key, k2: Key)
    requires Supported(k1) && Supported(k2)
    requires KeyToString(k1) == KeyToString(k2)
    ensures k1 == k2
  {
    CodecRoundTrip(k1);
    CodecRoundTrip(k2);
  }
}
