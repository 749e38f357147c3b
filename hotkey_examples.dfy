/**
 * The cases the source's own tests of src/hotkey.rs exercise, and a few more
 * edge cases of `parse_hotkey`, stated as lemmas about the model.
 */
module HotkeyExamples {
  import opened Wrappers
  import opened Text
  import opened Hotkey

  /** The key names the source's own test exercises. */
  lemma KeyCodeExampleLetter()
    ensures ParseKeyCode("a") == Ok(Key('A'))
  {
    assert Lower("a") == "a";
  }

  lemma KeyCodeExampleFunction()
    ensures ParseKeyCode("F1") == Ok(F(1))
  {
    assert Lower("F1") == "f1";
  }

  lemma KeyCodeExampleNamed()
    ensures ParseKeyCode("space") == Ok(Space)
  {
    assert Lower("space") == "space";
  }

  lemma KeyCodeExampleUnknown()
    ensures ParseKeyCode("invalid") == Err(UnknownKey("invalid"))
  {
    SevenLetterTokenUnknown("invalid");
  }

  /** No key name of the table has seven characters. */
  lemma SevenLetterTokenUnknown(t: string)
    requires |t| == 7
    ensures ParseKeyCode(t) == Err(UnknownKey(t))
  {
    assert forall i :: 0 <= i < |NamedKeyTable| ==> |NamedKeyTable[i].0| != 7;
    LookupFirst(Lower(t), NamedKeyTable);
  }


  /** Every modifier synonym is at least three characters long, so a one-letter
      token is never a modifier. */
  lemma ShortTokenNotModifier(t: string)
    requires |t| < 3
    ensures ModifierOf(t).None?
  {
    assert forall i :: 0 <= i < |ModifierTable| ==> |ModifierTable[i].0| >= 3;
    LookupFirst(t, ModifierTable);
  }

  /** A capital letter on its own is a plain token naming that key. */
  lemma LetterToken(c: char)
    requires 'A' <= c <= 'Z'
    ensures PlainToken([c])
    ensures ModifierOf(Lower([c])).None? && ParseKeyCode(Lower([c])) == Ok(Key(c))
  {
    assert Lower([c]) == [LowerChar(c)];
    ShortTokenNotModifier(Lower([c]));
    KeyCodeSingleChar(c);
    LowerIdempotent([c]);
  }

  /** The bindings of the source's own test. */
  lemma ParseExampleAltQ()
    ensures ParseSpec("Alt+Q") == Ok(HotKey({Alt}, Key('Q')))
  {
    assert "Alt" + "+" + "Q" == "Alt+Q";
    assert Lower("Alt") == "alt";
    LetterToken('Q');
    ParseModifierKey("Alt", "Q", Alt, Key('Q'));
  }

  /** A modifier written as in the tests: plain, and naming `m` once lower-cased. */
  predicate ModifierToken(t: string, m: Modifier) {
    PlainToken(t) && ModifierOf(Lower(t)) == Some(m)
  }

  lemma CtrlToken()
    ensures ModifierToken("Ctrl", Control)
  {
    assert Lower("Ctrl") == "ctrl";
  }

  lemma ShiftToken()
    ensures ModifierToken("Shift", Shift)
  {
    assert Lower("Shift") == "shift";
  }

  lemma CmdToken()
    ensures ModifierToken("Cmd", Meta)
  {
    assert Lower("Cmd") == "cmd";
  }

  lemma OptionToken()
    ensures ModifierToken("Option", Alt)
  {
    assert Lower("Option") == "option";
  }

  lemma ParseExampleCtrlShiftT()
    ensures ParseSpec("Ctrl+Shift+T") == Ok(HotKey({Control, Shift}, Key('T')))
  {
    assert "Ctrl" + "+" + "Shift" + "+" + "T" == "Ctrl+Shift+T";
    CtrlToken();
    ShiftToken();
    LetterToken('T');
    ParseModifiersKey("Ctrl", "Shift", "T", Control, Shift, Key('T'));
  }

  lemma ParseExampleCmdShiftT()
    ensures ParseSpec("Cmd+Shift+T") == Ok(HotKey({Meta, Shift}, Key('T')))
  {
    assert "Cmd" + "+" + "Shift" + "+" + "T" == "Cmd+Shift+T";
    CmdToken();
    ShiftToken();
    LetterToken('T');
    ParseModifiersKey("Cmd", "Shift", "T", Meta, Shift, Key('T'));
  }

  lemma ParseExampleOptionQ()
    ensures ParseSpec("Option+Q") == Ok(HotKey({Alt}, Key('Q')))
  {
    assert "Option" + "+" + "Q" == "Option+Q";
    OptionToken();
    LetterToken('Q');
    ParseModifierKey("Option", "Q", Alt, Key('Q'));
  }

  /** A key without a modifier is refused. */
  lemma ParseExampleNoModifier()
    ensures ParseSpec("Q") == Err(NoModifier)
  {
    LetterToken('Q');
    TokensOfOne("Q");
    ScanSnocKey([], "Q", ScanState({}, None), Key('Q'));
    assert [] + ["Q"] == ["Q"];
  }

  /** A modifier without a key is refused. */
  lemma ParseExampleNoKey()
    ensures ParseSpec("Ctrl") == Err(NoKey)
  {
    CtrlToken();
    ParseLoneModifier("Ctrl", Control);
  }

  /** A mnemonic that is a single modifier names no key. */
  lemma ParseLoneModifier(t: string, m: Modifier)
    requires ModifierToken(t, m)
    ensures ParseSpec(t) == Err(NoKey)
  {
    TokensOfOne(t);
    ScanSnocModifier([], t, ScanState({}, None), m);
    assert [] + [t] == [t];
  }

  /** The empty mnemonic is one empty token, which names no key. */
  lemma ParseExampleEmpty()
    ensures ParseSpec("") == Err(UnknownKey(""))
  {
    TokensOfOne("");
    EmptyTokenUnknown();
    ScanSnoc([], "");
    assert [] + [""] == [""];
  }

  /** The empty token is neither a modifier nor a key. */
  lemma EmptyTokenUnknown()
    ensures ModifierOf(Lower("")).None? && ParseKeyCode(Lower("")) == Err(UnknownKey(""))
  {
    assert Lower("") == "";
    ShortTokenNotModifier("");
    NoEmptyKeyName();
  }

  lemma NoEmptyKeyName()
    ensures KeyOfName("").None?
  {
    assert forall i :: 0 <= i < |NamedKeyTable| ==> |NamedKeyTable[i].0| != 0;
    LookupFirst("", NamedKeyTable);
  }
}
