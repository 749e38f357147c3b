/**
 * Global hotkey mnemonics and the binding manager (src/hotkey.rs).
 *
 * `ParseHotkey` reads a mnemonic such as "Ctrl+Shift+T": it splits on '+',
 * trims and lower-cases each token, collects modifier synonyms into a set and
 * resolves the other tokens through a closed key table, the last one winning.
 * `HotkeyManager` owns the one live binding in the platform's hotkey registry
 * and swaps it register-first, release-second.
 */
module Hotkey {
  import opened Wrappers
  import opened Text

  /** The default binding used when the configured one cannot be registered. */
  const DefaultHotkey: string := "Alt+Q"

  datatype Modifier = Control | Alt | Shift | Meta

  /** The keys of `parse_key_code`'s table: letters, digits, F1-F12 and the named keys. */
  datatype Code =
    | Key(letter: char)     // 'A' .. 'Z' in the table
    | Digit(digit: nat)     // 0 .. 9 in the table
    | F(number: nat)        // 1 .. 12 in the table
    | Space | Enter | Tab | Escape | Backspace | Delete | Insert
    | Home | End | PageUp | PageDown | ArrowUp | ArrowDown | ArrowLeft | ArrowRight

  /** A parsed binding: a set of modifiers and one main key. */
  datatype HotKey = HotKey(mods: set<Modifier>, code: Code)

  datatype ParseError =
    | NoModifier           // "Hotkey must include at least one modifier"
    | NoKey                // "No key specified in hotkey"
    | UnknownKey(key: string)

  /** The modifier synonyms of `parse_hotkey`, lower case. */
  const ModifierTable: seq<(string, Modifier)> := [
    ("ctrl", Control), ("control", Control),
    ("alt", Alt), ("option", Alt), ("opt", Alt),
    ("shift", Shift),
    ("win", Meta), ("super", Meta), ("meta", Meta), ("cmd", Meta), ("command", Meta)
  ]

  /** The named keys of `parse_key_code`'s table, lower case, with their synonyms. */
  const NamedKeyTable: seq<(string, Code)> := [
    ("space", Space), ("enter", Enter), ("return", Enter), ("tab", Tab),
    ("escape", Escape), ("esc", Escape), ("backspace", Backspace),
    ("delete", Delete), ("del", Delete), ("insert", Insert), ("ins", Insert),
    ("home", Home), ("end", End), ("pageup", PageUp), ("pgup", PageUp),
    ("pagedown", PageDown), ("pgdn", PageDown),
    ("up", ArrowUp), ("down", ArrowDown), ("left", ArrowLeft), ("right", ArrowRight)
  ]

  /** The number of a function-key name "f1" .. "f12" (no sign, no leading zero). */
  function FunctionKeyNumber(t: string): Option<nat> {
    if |t| == 2 && t[0] == 'f' && '1' <= t[1] <= '9' then Some(t[1] as int - '0' as int)
    else if |t| == 3 && t[0] == 'f' && t[1] == '1' && '0' <= t[2] <= '2' then Some(10 + (t[2] as int - '0' as int))
    else None
  }

  /** The key a lower-cased name denotes in `parse_key_code`'s table: the 26 letters,
      the 10 digits, F1-F12 and the named keys. */
  function KeyOfName(t: string): Option<Code> {
    if |t| == 1 && 'a' <= t[0] <= 'z' then Some(Key((t[0] as int - 32) as char))
    else if |t| == 1 && IsDigit(t[0]) then Some(Digit(DigitValue(t[0])))
    else if FunctionKeyNumber(t).Some? then Some(F(FunctionKeyNumber(t).value))
    else Lookup(t, NamedKeyTable)
  }

  /** The modifier a lower-cased token names, if any. */
  function ModifierOf(token: string): Option<Modifier> {
    Lookup(token, ModifierTable)
  }

  /** `parse_key_code`: the key a token names, compared after lower-casing. */
  function ParseKeyCode(key: string): (r: Result<Code, ParseError>)
    ensures r.Err? ==> r.error == UnknownKey(key)
  {
    match KeyOfName(Lower(key))
    case Some(c) => Ok(c)
    case None => Err(UnknownKey(key))
  }

  /** The tokens of a mnemonic: the '+'-separated pieces, trimmed. */
  function Tokens(s: string): seq<string> {
    var parts := Split(s, '+');
    seq(|parts|, i requires 0 <= i < |parts| => Trim(parts[i]))
  }

  /** What the token loop has gathered so far. */
  datatype ScanState = ScanState(mods: set<Modifier>, key: Option<Code>)

  /** One turn of the token loop on a lower-cased token. */
  function ScanStep(st: ScanState, t: string): Result<ScanState, ParseError> {
    match ModifierOf(t)
    case Some(m) => Ok(st.(mods := st.mods + {m}))
    case None =>
      match ParseKeyCode(t)
      case Ok(c) => Ok(st.(key := Some(c)))
      case Err(e) => Err(e)
  }

  /** The token loop over all tokens, left to right, stopping at the first unknown key. */
  function Scan(tokens: seq<string>): Result<ScanState, ParseError> {
    if tokens == [] then Ok(ScanState({}, None))
    else
      match Scan(tokens[..|tokens| - 1])
      case Err(e) => Err(e)
      case Ok(st) => ScanStep(st, Lower(tokens[|tokens| - 1]))
  }

  /** What `parse_hotkey` returns for a mnemonic. */
  function ParseSpec(s: string): Result<HotKey, ParseError> {
    Finish(Scan(Tokens(s)))
  }

  /** The checks after the loop: at least one modifier, then a key. */
  function Finish(scanned: Result<ScanState, ParseError>): (r: Result<HotKey, ParseError>)
    ensures r.Ok? ==> r.value.mods != {}
  {
    match scanned
    case Err(e) => Err(e)
    case Ok(st) =>
      if st.mods == {} then Err(NoModifier)
      else if st.key.None? then Err(NoKey)
      else Ok(HotKey(st.mods, st.key.value))
  }

  /** `parse_hotkey`: split and trim, run the token loop, then demand a modifier and a key. */
  method ParseHotkey(s: string) returns (r: Result<HotKey, ParseError>)
    ensures r == ParseSpec(s)
  {
    var scanned := ScanTokens(Tokens(s));
    if scanned.Err? {
      return Err(scanned.error);
    }
    var modifiers, keyCode := scanned.value.mods, scanned.value.key;
    if modifiers == {} {
      return Err(NoModifier);
    }
    if keyCode.None? {
      return Err(NoKey);
    }
    r := Ok(HotKey(modifiers, keyCode.value));
  }

  /** The token loop of `parse_hotkey`, stopping at the first unknown key. */
  method ScanTokens(parts: seq<string>) returns (r: Result<ScanState, ParseError>)
    ensures r == Scan(parts)
  {
    var modifiers: set<Modifier> := {};
    var keyCode: Option<Code> := None;
    var i := 0;
    while i < |parts|
      invariant 0 <= i <= |parts|
      invariant Scan(parts[..i]) == Ok(ScanState(modifiers, keyCode))
    {
      ScanPrefix(parts, i);
      var next := ApplyToken(modifiers, keyCode, parts[i]);
      if next.Err? {
        PrefixErrorPersists(parts, i + 1);
        return Err(next.error);
      }
      modifiers, keyCode := next.value.mods, next.value.key;
      i := i + 1;
    }
    assert parts[..i] == parts;
    r := Ok(ScanState(modifiers, keyCode));
  }

  /** The body of the token loop: a modifier joins the set, any other token must
      name a key, which replaces the one seen before. */
  method ApplyToken(modifiers: set<Modifier>, keyCode: Option<Code>, part: string)
    returns (r: Result<ScanState, ParseError>)
    ensures r == ScanStep(ScanState(modifiers, keyCode), Lower(part))
  {
    var t := Lower(part);
    match ModifierOf(t) {
      case Some(m) =>
        r := Ok(ScanState(modifiers + {m}, keyCode));
      case None =>
        var code := ParseKeyCode(t);
        if code.Err? {
          return Err(code.error);
        }
        r := Ok(ScanState(modifiers, Some(code.value)));
    }
  }

  /** One more token is one more turn of the loop. */
  lemma ScanPrefix(tokens: seq<string>, i: nat)
    requires i < |tokens| && Scan(tokens[..i]).Ok?
    ensures Scan(tokens[..i + 1]) == ScanStep(Scan(tokens[..i]).value, Lower(tokens[i]))
  {
    assert tokens[..i + 1][..i] == tokens[..i];
  }

  /** Once the loop has failed on a prefix, it fails the same way on the whole. */
  lemma {:induction false} PrefixErrorPersists(tokens: seq<string>, n: nat)
    requires n <= |tokens| && Scan(tokens[..n]).Err?
    ensures Scan(tokens) == Scan(tokens[..n])
    decreases |tokens| - n
  {
    if n < |tokens| {
      assert tokens[..n + 1][..n] == tokens[..n];
      PrefixErrorPersists(tokens, n + 1);
    } else {
      assert tokens[..n] == tokens;
    }
  }

  // ---------------------------------------------------------------------
  // What the parser accepts and what it returns

  /** A lower-cased token the loop accepts: a modifier or a key of the table. */
  predicate KnownToken(t: string) {
    ModifierOf(t).Some? || ParseKeyCode(t).Ok?
  }

  /** The loop succeeds exactly when every token is a modifier or a key of the table. */
  lemma ScanOkIff(tokens: seq<string>)
    ensures Scan(tokens).Ok? <==> forall i :: 0 <= i < |tokens| ==> KnownToken(Lower(tokens[i]))
  {
    if Scan(tokens).Ok? {
      ScanOkKnown(tokens);
    } else {
      ScanErrUnknown(tokens);
    }
  }

  /** A successful loop met only known tokens. */
  lemma {:induction false} ScanOkKnown(tokens: seq<string>)
    requires Scan(tokens).Ok?
    ensures forall i :: 0 <= i < |tokens| ==> KnownToken(Lower(tokens[i]))
  {
    if tokens != [] {
      var n := |tokens| - 1;
      var init := tokens[..n];
      ScanOkKnown(init);
      ScanStepOk(Scan(init).value, Lower(tokens[n]));
      forall i | 0 <= i < |tokens|
        ensures KnownToken(Lower(tokens[i]))
      {
        if i < n {
          assert init[i] == tokens[i];
        }
      }
    }
  }

  /** A failed loop met an unknown token. */
  lemma {:induction false} ScanErrUnknown(tokens: seq<string>)
    requires Scan(tokens).Err?
    ensures exists i :: 0 <= i < |tokens| && !KnownToken(Lower(tokens[i]))
  {
    var n := |tokens| - 1;
    var init := tokens[..n];
    if Scan(init).Err? {
      ScanErrUnknown(init);
      var i :| 0 <= i < |init| && !KnownToken(Lower(init[i]));
      assert init[i] == tokens[i];
    } else {
      ScanStepOk(Scan(init).value, Lower(tokens[n]));
    }
  }

  /** One turn of the loop goes on exactly when the token is known. */
  lemma ScanStepOk(st: ScanState, t: string)
    ensures ScanStep(st, t).Ok? <==> KnownToken(t)
  {
  }

  /** On success the modifier set holds exactly the modifiers named by some token. */
  lemma {:induction false} ScanMods(tokens: seq<string>, m: Modifier)
    requires Scan(tokens).Ok?
    ensures m in Scan(tokens).value.mods <==>
      exists i :: 0 <= i < |tokens| && ModifierOf(Lower(tokens[i])) == Some(m)
  {
    if tokens != [] {
      var init := tokens[..|tokens| - 1];
      ScanMods(init, m);
      assert forall i :: 0 <= i < |init| ==> init[i] == tokens[i];
      if ModifierOf(Lower(tokens[|tokens| - 1])) == Some(m) {
        assert m in Scan(tokens).value.mods;
      }
    }
  }

  /** On success the key is absent exactly when every token is a modifier. */
  lemma {:induction false} ScanNoKey(tokens: seq<string>)
    requires Scan(tokens).Ok?
    ensures Scan(tokens).value.key.None? <==>
      forall i :: 0 <= i < |tokens| ==> ModifierOf(Lower(tokens[i])).Some?
  {
    if tokens != [] {
      var init := tokens[..|tokens| - 1];
      ScanNoKey(init);
      assert forall i :: 0 <= i < |init| ==> init[i] == tokens[i];
    }
  }

  /** Token `i` is the last token that is not a modifier, and it names key `c`. */
  predicate LastKeyAt(tokens: seq<string>, i: int, c: Code) {
    && 0 <= i < |tokens|
    && ModifierOf(Lower(tokens[i])).None?
    && ParseKeyCode(Lower(tokens[i])) == Ok(c)
    && forall j :: i < j < |tokens| ==> ModifierOf(Lower(tokens[j])).Some?
  }

  /** On success with a key, the key is that of the LAST key token: later key
      tokens overwrite earlier ones and no error is raised. */
  lemma {:induction false} ScanLastKey(tokens: seq<string>)
    requires Scan(tokens).Ok? && Scan(tokens).value.key.Some?
    ensures exists i :: LastKeyAt(tokens, i, Scan(tokens).value.key.value)
  {
    var n := |tokens| - 1;
    var init := tokens[..n];
    var last := Lower(tokens[n]);
    assert Scan(tokens) == ScanStep(Scan(init).value, last);
    var c := Scan(tokens).value.key.value;
    if ModifierOf(last).Some? {
      assert Scan(init).value.key == Some(c);
      ScanLastKey(init);
      var i :| LastKeyAt(init, i, c);
      assert forall j :: i <= j < n ==> init[j] == tokens[j];
      assert LastKeyAt(tokens, i, c);
    } else {
      assert LastKeyAt(tokens, n, c);
    }
  }

  /** The loop fails on the first unknown token, with that token as the error. */
  lemma {:induction false} ScanError(tokens: seq<string>)
    requires Scan(tokens).Err?
    ensures exists i ::
      && 0 <= i < |tokens| && !KnownToken(Lower(tokens[i]))
      && (forall j :: 0 <= j < i ==> KnownToken(Lower(tokens[j])))
      && Scan(tokens).error == UnknownKey(Lower(tokens[i]))
  {
    var init := tokens[..|tokens| - 1];
    assert forall i :: 0 <= i < |init| ==> init[i] == tokens[i];
    if Scan(init).Err? {
      ScanError(init);
    } else {
      ScanOkIff(init);
      var last := Lower(tokens[|tokens| - 1]);
      assert ModifierOf(last).None? && ParseKeyCode(last).Err?;
    }
  }

  // ---------------------------------------------------------------------
  // The key table, case-insensitively

  /** A table lookup finds an entry exactly when some entry carries that name, and
      what it finds is the value of the first such entry. */
  lemma {:induction false} LookupFirst<T>(t: string, table: seq<(string, T)>)
    ensures Lookup(t, table).Some? <==> exists i :: 0 <= i < |table| && table[i].0 == t
    ensures Lookup(t, table).Some? ==> exists i ::
      && 0 <= i < |table| && table[i] == (t, Lookup(t, table).value)
      && forall j :: 0 <= j < i ==> table[j].0 != t
  {
    if table != [] {
      LookupFirst(t, table[1..]);
      assert forall i :: 1 <= i < |table| ==> table[1..][i - 1] == table[i];
      if table[0].0 != t && Lookup(t, table).Some? {
        var i :| 0 <= i < |table[1..]| && table[1..][i] == (t, Lookup(t, table).value)
          && forall j :: 0 <= j < i ==> table[1..][j].0 != t;
        assert table[i + 1] == (t, Lookup(t, table).value);
        assert forall j :: 1 <= j < i + 1 ==> table[j] == table[1..][j - 1];
      }
    }
  }

  /** The single-character names are the letters, upper-cased, and the digits. */
  lemma KeyCodeSingleChar(c: char)
    ensures 'a' <= c <= 'z' ==> ParseKeyCode([c]) == Ok(Key((c as int - 32) as char))
    ensures 'A' <= c <= 'Z' ==> ParseKeyCode([c]) == Ok(Key(c))
    ensures '0' <= c <= '9' ==> ParseKeyCode([c]) == Ok(Digit(c as int - '0' as int))
  {
    assert Lower([c]) == [LowerChar(c)];
  }

  /** The function keys are exactly F1 .. F12, spelt without leading zeros. */
  lemma FunctionKeyNames(t: string, n: nat)
    ensures FunctionKeyNumber(t) == Some(n) <==> 1 <= n <= 12 && t == "f" + NatToString(n)
  {
    if 10 <= n <= 12 {
      assert NatToString(n) == NatToString(1) + [DigitChar(n % 10)];
    }
    if FunctionKeyNumber(t) == Some(n) {
      if |t| == 2 {
        assert t == "f" + [t[1]];
      } else {
        assert t == "f" + [t[1]] + [t[2]];
      }
    }
  }

  /** A name outside the table is refused with the name itself in the error. */
  lemma KeyCodeUnknown(key: string)
    requires KeyOfName(Lower(key)).None?
    ensures ParseKeyCode(key) == Err(UnknownKey(key))
  {
  }

  /** The case of a key name does not matter: lower-casing it first changes nothing. */
  lemma ParseKeyCodeCaseInsensitive(key: string)
    ensures ParseKeyCode(Lower(key)).Ok? == ParseKeyCode(key).Ok?
    ensures ParseKeyCode(key).Ok? ==> ParseKeyCode(Lower(key)).value == ParseKeyCode(key).value
  {
    LowerIdempotent(key);
  }

  // ---------------------------------------------------------------------
  // Case does not matter

  /** The tokens of a lower-cased mnemonic are its tokens, lower-cased. */
  lemma TokensLower(s: string)
    ensures Tokens(Lower(s)) == LowerAll(Tokens(s))
  {
    SplitLower(s, '+');
    var parts := Split(s, '+');
    forall k | 0 <= k < |parts| {
      TrimLower(parts[k]);
    }
  }

  /** The loop lower-cases each token itself, so lower-casing them first changes nothing. */
  lemma {:induction false} ScanLowerAll(tokens: seq<string>)
    ensures Scan(LowerAll(tokens)) == Scan(tokens)
  {
    if tokens != [] {
      var n := |tokens| - 1;
      var lt := LowerAll(tokens);
      assert lt[..n] == LowerAll(tokens[..n]);
      ScanLowerAll(tokens[..n]);
      LowerIdempotent(tokens[n]);
    }
  }

  /** A mnemonic parses the same whatever the case of its letters: the lower-cased
      form that `update_hotkey` compares and stores denotes the same binding. */
  lemma ParseCaseInsensitive(s: string)
    ensures ParseSpec(Lower(s)) == ParseSpec(s)
  {
    TokensLower(s);
    ScanLowerAll(Tokens(s));
  }

  /** Two mnemonics equal up to case denote the same binding. */
  lemma SameLowerSameBinding(s: string, t: string)
    requires Lower(s) == Lower(t)
    ensures ParseSpec(s) == ParseSpec(t)
  {
    ParseCaseInsensitive(s);
    ParseCaseInsensitive(t);
  }

  // ---------------------------------------------------------------------
  // Whole mnemonics

  /** One more token on the right is one more turn of the loop. */
  lemma ScanSnoc(tokens: seq<string>, t: string)
    ensures Scan(tokens + [t]) ==
      if Scan(tokens).Err? then Scan(tokens) else ScanStep(Scan(tokens).value, Lower(t))
  {
    assert (tokens + [t])[..|tokens|] == tokens;
  }

  /** A modifier token adds its modifier and keeps the key. */
  lemma StepModifier(st: ScanState, t: string, m: Modifier)
    requires ModifierOf(t) == Some(m)
    ensures ScanStep(st, t) == Ok(ScanState(st.mods + {m}, st.key))
  {
  }

  /** A key token replaces the key and keeps the modifiers. */
  lemma StepKey(st: ScanState, t: string, c: Code)
    requires ModifierOf(t).None? && ParseKeyCode(t) == Ok(c)
    ensures ScanStep(st, t) == Ok(ScanState(st.mods, Some(c)))
  {
  }

  /** A token the mnemonic's splitting leaves as it is: no '+', no surrounding space. */
  predicate PlainToken(t: string) {
    '+' !in t && (t != [] ==> !IsWhitespace(t[0]) && !IsWhitespace(t[|t| - 1]))
  }

  /** The tokens are the trimmed pieces. */
  lemma TokensOfPieces(s: string, pieces: seq<string>)
    requires Split(s, '+') == pieces
    requires forall k :: 0 <= k < |pieces| ==> PlainToken(pieces[k])
    ensures Tokens(s) == pieces
  {
    forall k | 0 <= k < |pieces| {
      TrimNoSurroundingSpace(pieces[k]);
    }
  }

  /** Two plain tokens joined by '+' are the two tokens of the mnemonic. */
  lemma TokensOfTwo(a: string, b: string)
    requires PlainToken(a) && PlainToken(b)
    ensures Tokens(a + "+" + b) == [a, b]
  {
    SplitCons(a, b, '+');
    SplitNoSeparator(b, '+');
    TokensOfPieces(a + "+" + b, [a, b]);
  }

  /** Three plain tokens joined by '+' are the three tokens of the mnemonic. */
  lemma TokensOfThree(a: string, b: string, c: string)
    requires PlainToken(a) && PlainToken(b) && PlainToken(c)
    ensures Tokens(a + "+" + b + "+" + c) == [a, b, c]
  {
    SplitCons(b, c, '+');
    SplitNoSeparator(c, '+');
    SplitCons(a, b + "+" + c, '+');
    assert a + "+" + b + "+" + c == a + "+" + (b + "+" + c);
    TokensOfPieces(a + "+" + b + "+" + c, [a, b, c]);
  }

  /** A loop that ends with a modifier and a key yields the binding. */
  lemma ParseSpecOfScan(s: string, mods: set<Modifier>, c: Code)
    requires Scan(Tokens(s)) == Ok(ScanState(mods, Some(c))) && mods != {}
    ensures ParseSpec(s) == Ok(HotKey(mods, c))
  {
  }

  /** A modifier token on the right adds its modifier. */
  lemma ScanSnocModifier(tokens: seq<string>, t: string, st: ScanState, m: Modifier)
    requires Scan(tokens) == Ok(st) && ModifierOf(Lower(t)) == Some(m)
    ensures Scan(tokens + [t]) == Ok(ScanState(st.mods + {m}, st.key))
  {
    ScanSnoc(tokens, t);
    StepModifier(st, Lower(t), m);
  }

  /** A key token on the right sets the key. */
  lemma ScanSnocKey(tokens: seq<string>, t: string, st: ScanState, c: Code)
    requires Scan(tokens) == Ok(st) && ModifierOf(Lower(t)).None? && ParseKeyCode(Lower(t)) == Ok(c)
    ensures Scan(tokens + [t]) == Ok(ScanState(st.mods, Some(c)))
  {
    ScanSnoc(tokens, t);
    StepKey(st, Lower(t), c);
  }

  /** The loop over a modifier and a key. */
  lemma ScanModifierKey(a: string, b: string, m: Modifier, c: Code)
    requires ModifierOf(Lower(a)) == Some(m)
    requires ModifierOf(Lower(b)).None? && ParseKeyCode(Lower(b)) == Ok(c)
    ensures Scan([a, b]) == Ok(ScanState({m}, Some(c)))
  {
    ScanSnocModifier([], a, ScanState({}, None), m);
    assert {} + {m} == {m} && [] + [a] == [a];
    ScanSnocKey([a], b, ScanState({m}, None), c);
    assert [a] + [b] == [a, b];
  }

  /** "Modifier+Key": one modifier, one key. */
  lemma ParseModifierKey(a: string, b: string, m: Modifier, c: Code)
    requires PlainToken(a) && PlainToken(b)
    requires ModifierOf(Lower(a)) == Some(m)
    requires ModifierOf(Lower(b)).None? && ParseKeyCode(Lower(b)) == Ok(c)
    ensures ParseSpec(a + "+" + b) == Ok(HotKey({m}, c))
  {
    TokensOfTwo(a, b);
    ScanModifierKey(a, b, m, c);
    ParseSpecOfScan(a + "+" + b, {m}, c);
  }

  /** The loop over a modifier, a modifier and a key. */
  lemma ScanModifiersKey(a: string, b: string, k: string, m: Modifier, n: Modifier, c: Code)
    requires ModifierOf(Lower(a)) == Some(m) && ModifierOf(Lower(b)) == Some(n)
    requires ModifierOf(Lower(k)).None? && ParseKeyCode(Lower(k)) == Ok(c)
    ensures Scan([a, b, k]) == Ok(ScanState({m, n}, Some(c)))
  {
    ScanSnocModifier([], a, ScanState({}, None), m);
    assert {} + {m} == {m} && [] + [a] == [a];
    ScanSnocModifier([a], b, ScanState({m}, None), n);
    assert {m} + {n} == {m, n} && [a] + [b] == [a, b];
    ScanSnocKey([a, b], k, ScanState({m, n}, None), c);
    assert [a, b] + [k] == [a, b, k];
  }

  /** "Modifier+Modifier+Key": two modifiers, one key. */
  lemma ParseModifiersKey(a: string, b: string, k: string, m: Modifier, n: Modifier, c: Code)
    requires PlainToken(a) && PlainToken(b) && PlainToken(k)
    requires ModifierOf(Lower(a)) == Some(m) && ModifierOf(Lower(b)) == Some(n)
    requires ModifierOf(Lower(k)).None? && ParseKeyCode(Lower(k)) == Ok(c)
    ensures ParseSpec(a + "+" + b + "+" + k) == Ok(HotKey({m, n}, c))
  {
    TokensOfThree(a, b, k);
    ScanModifiersKey(a, b, k, m, n, c);
    ParseSpecOfScan(a + "+" + b + "+" + k, {m, n}, c);
  }

  /** A mnemonic without '+' is one token. */
  lemma TokensOfOne(a: string)
    requires PlainToken(a)
    ensures Tokens(a) == [a]
  {
    SplitNoSeparator(a, '+');
    TokensOfPieces(a, [a]);
  }

  // ---------------------------------------------------------------------
  // Binding identifiers

  /** The modifiers as four bits. */
  function ModifierBits(mods: set<Modifier>): (r: nat)
    ensures r < 16
  {
    (if Control in mods then 1 else 0) + (if Alt in mods then 2 else 0)
    + (if Shift in mods then 4 else 0) + (if Meta in mods then 8 else 0)
  }

  /** A number per key; the residue modulo 20 tells the constructors apart. */
  function CodeNumber(c: Code): nat {
    match c
    case Key(l) => 20 * (l as int)
    case Digit(d) => 1 + 20 * d
    case F(n) => 2 + 20 * n
    case Space => 3
    case Enter => 4
    case Tab => 5
    case Escape => 6
    case Backspace => 7
    case Delete => 8
    case Insert => 9
    case Home => 10
    case End => 11
    case PageUp => 12
    case PageDown => 13
    case ArrowUp => 14
    case ArrowDown => 15
    case ArrowLeft => 16
    case ArrowRight => 17
  }

  /** `HotKey::id`: the number a platform hotkey event carries for this binding. */
  function Id(h: HotKey): nat {
    ModifierBits(h.mods) + 16 * CodeNumber(h.code)
  }

  lemma ModifierBitsInjective(a: set<Modifier>, b: set<Modifier>)
    requires ModifierBits(a) == ModifierBits(b)
    ensures a == b
  {
    assert (Control in a) == (Control in b) && (Alt in a) == (Alt in b);
    assert (Shift in a) == (Shift in b) && (Meta in a) == (Meta in b);
    forall m: Modifier
      ensures m in a <==> m in b
    {
      match m
      case Control =>
      case Alt =>
      case Shift =>
      case Meta =>
    }
  }

  lemma CodeNumberInjective(c: Code, d: Code)
    requires CodeNumber(c) == CodeNumber(d)
    ensures c == d
  {
    assert CodeNumber(c) % 20 == CodeNumber(d) % 20;
  }

  /** Two bindings share an identifier exactly when they are the same binding. */
  lemma IdInjective(a: HotKey, b: HotKey)
    ensures Id(a) == Id(b) <==> a == b
  {
    if Id(a) == Id(b) {
      IdParts(ModifierBits(a.mods), CodeNumber(a.code));
      IdParts(ModifierBits(b.mods), CodeNumber(b.code));
      ModifierBitsInjective(a.mods, b.mods);
      CodeNumberInjective(a.code, b.code);
    }
  }

  /** The modifier bits and the key number come back out of an identifier. */
  lemma IdParts(bits: nat, number: nat)
    requires bits < 16
    ensures (bits + 16 * number) % 16 == bits && (bits + 16 * number) / 16 == number
  {
  }

  /** A parsed binding has a modifier, so its identifier is positive. */
  lemma IdPositive(s: string)
    requires ParseSpec(s).Ok?
    ensures Id(ParseSpec(s).value) > 0
  {
    var h := ParseSpec(s).value;
    var m :| m in h.mods;
    match m
    case Control =>
    case Alt =>
    case Shift =>
    case Meta =>
  }

  // ---------------------------------------------------------------------
  // The platform registry and the manager

  datatype HotkeyError =
    | Parse(error: ParseError)
    | RegisterFailed(hotkey: HotKey)     // the platform refused the binding
    | UnregisterFailed(hotkey: HotKey)   // the platform refused to release it

  /** The platform's table of global hotkeys, as the manager observes it: a binding
      can be registered once, unless another program already holds it, and released
      while registered, unless the platform refuses. */
  class HotkeyRegistry {
    var registered: set<HotKey>
    /** Bindings held elsewhere, which the platform refuses to register. */
    var taken: set<HotKey>
    /** Bindings the platform refuses to release. */
    var stuck: set<HotKey>

    constructor (taken: set<HotKey>, stuck: set<HotKey>)
      ensures registered == {} && this.taken == taken && this.stuck == stuck
    {
      registered := {};
      this.taken := taken;
      this.stuck := stuck;
    }

    /** `GlobalHotKeyManager::register`. */
    method Register(h: HotKey) returns (ok: bool)
      modifies this
      ensures ok <==> h !in old(registered) && h !in taken
      ensures registered == if ok then old(registered) + {h} else old(registered)
      ensures taken == old(taken) && stuck == old(stuck)
    {
      ok := h !in registered && h !in taken;
      if ok {
        registered := registered + {h};
      }
    }

    /** `GlobalHotKeyManager::unregister`. */
    method Unregister(h: HotKey) returns (ok: bool)
      modifies this
      ensures ok <==> h in old(registered) && h !in stuck
      ensures registered == if ok then old(registered) - {h} else old(registered)
      ensures taken == old(taken) && stuck == old(stuck)
    {
      ok := h in registered && h !in stuck;
      if ok {
        registered := registered - {h};
      }
    }
  }

  /** The owner of the one translate binding (the non-macOS `HotkeyManager`). */
  class HotkeyManager {
    const registry: HotkeyRegistry
    var translateHotkey: HotKey
    var translateHotkeyId: nat
    /** The mnemonic of the live binding, lower-cased. */
    var currentHotkey: string

    /** The binding is live in the registry and the manager's own fields agree with it. */
    ghost predicate Valid()
      reads this, registry
    {
      translateHotkey in registry.registered && Cached()
    }

    /** The binding's identifier is cached, and the stored mnemonic denotes the binding. */
    ghost predicate Cached()
      reads this
    {
      && translateHotkeyId == Id(translateHotkey)
      && Lower(currentHotkey) == currentHotkey
      && ParseSpec(currentHotkey) == Ok(translateHotkey)
    }

    constructor (registry: HotkeyRegistry, h: HotKey, current: string)
      ensures this.registry == registry && translateHotkey == h
      ensures translateHotkeyId == Id(h) && currentHotkey == current
    {
      this.registry := registry;
      translateHotkey := h;
      translateHotkeyId := Id(h);
      currentHotkey := current;
    }

    /** `HotkeyManager::new`: parse, register, and remember the mnemonic lower-cased. */
    static method New(registry: HotkeyRegistry, s: string) returns (r: Result<HotkeyManager, HotkeyError>)
      modifies registry
      ensures ParseSpec(s).Err? ==> r == Err(Parse(ParseSpec(s).error))
      ensures ParseSpec(s).Ok? && (ParseSpec(s).value in old(registry.registered) || ParseSpec(s).value in registry.taken)
        ==> r == Err(RegisterFailed(ParseSpec(s).value))
      ensures r.Err? ==> ParseSpec(s).Err? || ParseSpec(s).value in old(registry.registered) || ParseSpec(s).value in registry.taken
      ensures r.Ok? ==>
        && ParseSpec(s).Ok? && fresh(r.value) && r.value.registry == registry && r.value.Valid()
        && r.value.translateHotkey == ParseSpec(s).value && r.value.currentHotkey == Lower(s)
      ensures registry.registered == if r.Ok? then old(registry.registered) + {ParseSpec(s).value} else old(registry.registered)
      ensures registry.taken == old(registry.taken) && registry.stuck == old(registry.stuck)
    {
      var parsed := ParseHotkey(s);
      if parsed.Err? {
        return Err(Parse(parsed.error));
      }
      var h := parsed.value;
      var ok := registry.Register(h);
      if !ok {
        return Err(RegisterFailed(h));
      }
      LowerIdempotent(s);
      ParseCaseInsensitive(s);
      var m := new HotkeyManager(registry, h, Lower(s));
      r := Ok(m);
    }

    /** `is_translate_hotkey`: whether a platform event is for the translate binding. */
    method IsTranslateHotkey(eventId: nat) returns (b: bool)
      ensures b <==> eventId == translateHotkeyId
      ensures Valid() ==> forall h :: eventId == Id(h) ==> (b <==> h == translateHotkey)
    {
      b := eventId == translateHotkeyId;
      forall h | eventId == Id(h) {
        IdInjective(h, translateHotkey);
      }
    }

    /** `update_hotkey`: a mnemonic equal up to case to the current one changes nothing;
        otherwise the new binding is registered BEFORE the old one is released, so a
        failure leaves the old binding in force. */
    method UpdateHotkey(s: string) returns (r: Outcome<HotkeyError>)
      requires Valid()
      modifies this, registry
      ensures Valid() && registry.taken == old(registry.taken) && registry.stuck == old(registry.stuck)
      ensures Lower(s) == old(currentHotkey) ==> r == Pass && unchanged(this) && registry.registered == old(registry.registered)
      ensures r == Pass ==> currentHotkey == Lower(s) && ParseSpec(s) == Ok(translateHotkey)
      ensures r == Pass && Lower(s) != old(currentHotkey) ==>
        registry.registered == old(registry.registered) - {old(translateHotkey)} + {translateHotkey}
      ensures r.Fail? ==> unchanged(this)
      ensures r.Fail? && !r.error.UnregisterFailed? ==> registry.registered == old(registry.registered)
      ensures r.Fail? && r.error.UnregisterFailed? ==>
        ParseSpec(s).Ok? && registry.registered == old(registry.registered) + {ParseSpec(s).value}
      ensures Lower(s) != old(currentHotkey) ==>
        (r == Pass <==>
          && ParseSpec(s).Ok?
          && ParseSpec(s).value !in old(registry.registered) + registry.taken
          && old(translateHotkey) !in registry.stuck)
      ensures Lower(s) != old(currentHotkey) && ParseSpec(s).Err? ==> r == Fail(Parse(ParseSpec(s).error))
      ensures Lower(s) != old(currentHotkey) && ParseSpec(s).Ok? && ParseSpec(s).value in old(registry.registered) + registry.taken ==>
        r == Fail(RegisterFailed(ParseSpec(s).value))
      ensures
        && Lower(s) != old(currentHotkey) && ParseSpec(s).Ok?
        && ParseSpec(s).value !in old(registry.registered) + registry.taken
        && old(translateHotkey) in registry.stuck
        ==> r == Fail(UnregisterFailed(old(translateHotkey)))
    {
      var normalized := Lower(s);
      if normalized == currentHotkey {
        SameLowerSameBinding(s, currentHotkey);
        return Pass;
      }
      var parsed := ParseHotkey(s);
      if parsed.Err? {
        return Fail(Parse(parsed.error));
      }
      LowerIdempotent(s);
      ParseCaseInsensitive(s);
      r := Rebind(parsed.value, normalized);
    }

    /** The second half of `update_hotkey`: register the new binding first, then
        release the old one, and only then take the new one with its mnemonic. */
    method Rebind(newHotkey: HotKey, normalized: string) returns (r: Outcome<HotkeyError>)
      requires translateHotkey in registry.registered
      modifies this, registry
      ensures registry.taken == old(registry.taken) && registry.stuck == old(registry.stuck)
      ensures r == Pass ==>
        && translateHotkey == newHotkey && translateHotkeyId == Id(newHotkey) && currentHotkey == normalized
        && registry.registered == old(registry.registered) - {old(translateHotkey)} + {newHotkey}
      ensures r.Fail? ==> unchanged(this) && translateHotkey in registry.registered
      ensures r.Fail? && !r.error.UnregisterFailed? ==>
        r.error == RegisterFailed(newHotkey) && registry.registered == old(registry.registered)
      ensures r.Fail? && r.error.UnregisterFailed? ==> registry.registered == old(registry.registered) + {newHotkey}
      ensures r == Pass <==> newHotkey !in old(registry.registered) + registry.taken && old(translateHotkey) !in registry.stuck
      ensures newHotkey in old(registry.registered) + registry.taken ==> r == Fail(RegisterFailed(newHotkey))
      ensures newHotkey !in old(registry.registered) + registry.taken && old(translateHotkey) in registry.stuck ==>
        r == Fail(UnregisterFailed(old(translateHotkey)))
    {
      var ok := registry.Register(newHotkey);
      if !ok {
        return Fail(RegisterFailed(newHotkey));
      }
      ok := registry.Unregister(translateHotkey);
      if !ok {
        return Fail(UnregisterFailed(translateHotkey));
      }
      translateHotkeyId := Id(newHotkey);
      translateHotkey := newHotkey;
      currentHotkey := normalized;
      r := Pass;
    }

    /** `Drop`: release the binding, ignoring a refusal. */
    method Release()
      requires Valid()
      modifies registry
      ensures registry.registered ==
        if translateHotkey in registry.stuck then old(registry.registered)
        else old(registry.registered) - {translateHotkey}
      ensures registry.taken == old(registry.taken) && registry.stuck == old(registry.stuck)
    {
      var _ := registry.Unregister(translateHotkey);
    }
  }
}
