/** The keystroke codec of libvirt-compose.py: the table from a character to
    the key symbols `virsh send-key` presses for it. */
module Keycodes {
  import opened Text

  const ShiftKey: string := "KEY_LEFTSHIFT"

  /** `{s: f"KEY_{s.upper()}" for s in ascii_lowercase}` */
  const LowerKeys: map<char, string> := map c | 'a' <= c <= 'z' :: "KEY_" + [Upper(c)]
  /** `{s: f"KEY_LEFTSHIFT KEY_{s}" for s in ascii_uppercase}` */
  const CapitalKeys: map<char, string> := map c | 'A' <= c <= 'Z' :: ShiftKey + " " + ("KEY_" + [c])
  /** `{str(n): f"KEY_{n}" for n in range(10)}` */
  const DigitKeys: map<char, string> := map c | '0' <= c <= '9' :: "KEY_" + [c]
  /** The ten punctuation and blank characters of the table. */
  const SpecialChars: set<char> := {'\n', ' ', '_', '-', '+', '>', '.', '/', '\'', '"'}

  /** The key symbols of the punctuation and blank entries. */
  function SpecialName(c: char): string {
    match c
    case '\n' => "KEY_ENTER"
    case ' ' => "KEY_SPACE"
    case '_' => ShiftKey + " " + "KEY_MINUS"
    case '-' => "KEY_MINUS"
    case '+' => ShiftKey + " " + "KEY_EQUAL"
    case '>' => ShiftKey + " " + "KEY_DOT"
    case '.' => "KEY_DOT"
    case '/' => "KEY_SLASH"
    case '\'' => "KEY_APOSTROPHE"
    case _ => ShiftKey + " " + "KEY_APOSTROPHE"
  }

  const SpecialKeys: map<char, string> := map c | c in SpecialChars :: SpecialName(c)

  /** `KEYCODES`: character to the space-separated key symbols (the four key ranges are disjoint,
      so Python's left-to-right `|` and Dafny's map union agree). */
  const KeyCodes: map<char, string> := LowerKeys + CapitalKeys + DigitKeys + SpecialKeys

  /** The key symbols pressed for `c`: `KEYCODES[c].split()`. */
  function Symbols(c: char): seq<string>
    requires c in KeyCodes
  {
    Tokens(KeyCodes[c])
  }

  predicate IsSpecial(c: char) {
    c in SpecialChars
  }

  /** The characters the codec can type. */
  predicate Encodable(c: char) {
    'a' <= c <= 'z' || 'A' <= c <= 'Z' || '0' <= c <= '9' || IsSpecial(c)
  }

  /** The characters with code points in `[lo, hi)`. */
  function CharRange(lo: int, hi: int): (r: set<char>)
    requires 0 <= lo <= hi <= 0xD800
    ensures |r| == hi - lo
    ensures forall c :: c in r <==> lo <= c as int < hi
    decreases hi - lo
  {
    if lo == hi then {} else CharRange(lo, hi - 1) + {(hi - 1) as char}
  }

  lemma SpecialKeysDomain()
    ensures SpecialKeys.Keys == SpecialChars
    ensures |SpecialKeys| == 10
  {
    assert |SpecialChars| == 10;
  }

  lemma RangeKeysSize()
    ensures |LowerKeys| == 26 && |CapitalKeys| == 26 && |DigitKeys| == 10
  {
    assert LowerKeys.Keys == CharRange('a' as int, 'z' as int + 1);
    assert CapitalKeys.Keys == CharRange('A' as int, 'Z' as int + 1);
    assert DigitKeys.Keys == CharRange('0' as int, '9' as int + 1);
  }

  lemma DisjointUnionSize<T>(a: set<T>, b: set<T>)
    requires a !! b
    ensures |a + b| == |a| + |b|
  {
    assert a * b == {};
  }

  /** The table holds exactly the encodable characters. */
  lemma KeyCodesMembers()
    ensures forall c :: c in KeyCodes <==> Encodable(c)
  {
    forall c ensures c in KeyCodes <==> Encodable(c) {
      assert c in LowerKeys <==> 'a' <= c <= 'z';
      assert c in CapitalKeys <==> 'A' <= c <= 'Z';
      assert c in DigitKeys <==> '0' <= c <= '9';
      assert c in SpecialKeys <==> c in SpecialChars;
    }
  }

  lemma RangesDisjoint()
    ensures LowerKeys.Keys !! CapitalKeys.Keys
    ensures (LowerKeys.Keys + CapitalKeys.Keys) !! DigitKeys.Keys
    ensures (LowerKeys.Keys + CapitalKeys.Keys + DigitKeys.Keys) !! SpecialChars
  {
  }

  /** The table has exactly 72 entries. */
  lemma KeyCodesSize()
    ensures |KeyCodes| == 72
  {
    RangeKeysSize();
    SpecialKeysDomain();
    RangesDisjoint();
    var a, b, d, e := LowerKeys.Keys, CapitalKeys.Keys, DigitKeys.Keys, SpecialKeys.Keys;
    DisjointUnionSize(a, b);
    DisjointUnionSize(a + b, d);
    DisjointUnionSize(a + b + d, e);
    assert KeyCodes.Keys == a + b + d + e;
  }

  /** A key symbol name: capitals, digits and `_`. */
  predicate KeyName(s: string) {
    s != [] && forall i :: 0 <= i < |s| ==> 'A' <= s[i] <= 'Z' || s[i] == '_' || '0' <= s[i] <= '9'
  }

  lemma KeyNameToken(s: string)
    requires KeyName(s)
    ensures Tokens(s) == [s]
  {
    assert NoSpace(s);
    TokensOfWord(s);
  }

  lemma TwoWords(a: string, b: string)
    requires KeyName(a) && KeyName(b)
    ensures Tokens(a + " " + b) == [a, b]
  {
    assert a + " " + b == a + [' '] + b;
    TokensSplitAtSpace(a, ' ', b);
    KeyNameToken(a);
    KeyNameToken(b);
  }

  lemma TwoSymbols(key: string)
    requires KeyName(key)
    ensures Tokens(ShiftKey + " " + key) == [ShiftKey, key]
  {
    assert KeyName(ShiftKey);
    TwoWords(ShiftKey, key);
  }

  /** A key missing from the right-hand map of a union is looked up in the left-hand one. */
  lemma UnionLeft(m1: map<char, string>, m2: map<char, string>, c: char)
    requires c in m1 && c !in m2
    ensures c in m1 + m2 && (m1 + m2)[c] == m1[c]
  {
  }

  /** Where each kind of character is found in the table. */
  lemma LowerLookup(c: char)
    requires 'a' <= c <= 'z'
    ensures c in KeyCodes && KeyCodes[c] == "KEY_" + [Upper(c)]
  {
    assert c !in SpecialChars;
    UnionLeft(LowerKeys, CapitalKeys, c);
    UnionLeft(LowerKeys + CapitalKeys, DigitKeys, c);
    UnionLeft(LowerKeys + CapitalKeys + DigitKeys, SpecialKeys, c);
  }

  lemma CapitalLookup(c: char)
    requires 'A' <= c <= 'Z'
    ensures c in KeyCodes && KeyCodes[c] == ShiftKey + " " + ("KEY_" + [c])
  {
    assert c !in SpecialChars;
    assert c in CapitalKeys;
    UnionLeft(LowerKeys + CapitalKeys, DigitKeys, c);
    UnionLeft(LowerKeys + CapitalKeys + DigitKeys, SpecialKeys, c);
  }

  lemma DigitLookup(c: char)
    requires '0' <= c <= '9'
    ensures c in KeyCodes && KeyCodes[c] == "KEY_" + [c]
  {
    assert c !in SpecialChars;
    UnionLeft(LowerKeys + CapitalKeys + DigitKeys, SpecialKeys, c);
  }

  lemma SpecialLookup(c: char)
    requires c in KeyCodes && !('a' <= c <= 'z') && !('A' <= c <= 'Z') && !('0' <= c <= '9')
    ensures c in SpecialKeys && KeyCodes[c] == SpecialKeys[c]
  {
  }

  /** A lower-case letter is one key, its upper-cased `KEY_` name. */
  lemma LowerCaseSymbols(c: char)
    requires 'a' <= c <= 'z'
    ensures c in KeyCodes && Symbols(c) == ["KEY_" + [Upper(c)]]
  {
    LowerLookup(c);
    KeyNameToken("KEY_" + [Upper(c)]);
  }

  /** An upper-case letter is the left shift key followed by its `KEY_` name. */
  lemma UpperCaseSymbols(c: char)
    requires 'A' <= c <= 'Z'
    ensures c in KeyCodes && Symbols(c) == [ShiftKey, "KEY_" + [c]]
  {
    CapitalLookup(c);
    TwoSymbols("KEY_" + [c]);
  }

  /** A digit is one key, `KEY_` followed by the digit. */
  lemma DigitSymbols(c: char)
    requires '0' <= c <= '9'
    ensures c in KeyCodes && Symbols(c) == ["KEY_" + [c]]
  {
    DigitLookup(c);
    KeyNameToken("KEY_" + [c]);
  }

  lemma OneWordSpecial(c: char)
    requires c in SpecialChars && c !in {'_', '+', '>', '"'}
    ensures KeyName(SpecialName(c))
  {
    match c
    case '\n' => assert KeyName("KEY_ENTER");
    case ' ' => assert KeyName("KEY_SPACE");
    case '-' => assert KeyName("KEY_MINUS");
    case '.' => assert KeyName("KEY_DOT");
    case '/' => assert KeyName("KEY_SLASH");
    case _ => assert c == '\'';
              assert KeyName("KEY_APOSTROPHE");
  }

  /** Each special entry is one key name, or the shift key and one key name. */
  lemma SpecialForm(c: char)
    requires c in SpecialChars
    ensures KeyName(SpecialName(c)) || exists k :: KeyName(k) && SpecialName(c) == ShiftKey + " " + k
  {
    match c
    case '_' => assert KeyName("KEY_MINUS");
    case '+' => assert KeyName("KEY_EQUAL");
    case '>' => assert KeyName("KEY_DOT");
    case '"' => assert KeyName("KEY_APOSTROPHE");
    case _ => OneWordSpecial(c);
  }

  lemma SpecialShape(c: char)
    requires c in SpecialKeys
    ensures 1 <= |Tokens(SpecialKeys[c])| <= 2
    ensures |Tokens(SpecialKeys[c])| == 2 ==> Tokens(SpecialKeys[c])[0] == ShiftKey
  {
    SpecialForm(c);
    if KeyName(SpecialName(c)) {
      KeyNameToken(SpecialName(c));
    } else {
      var k :| KeyName(k) && SpecialName(c) == ShiftKey + " " + k;
      TwoSymbols(k);
    }
  }

  /** Every entry is one or two key symbols, and a two-symbol entry starts with the shift key. */
  lemma SymbolShape(c: char)
    requires c in KeyCodes
    ensures 1 <= |Symbols(c)| <= 2
    ensures |Symbols(c)| == 2 ==> Symbols(c)[0] == ShiftKey
  {
    if 'a' <= c <= 'z' {
      LowerCaseSymbols(c);
    } else if 'A' <= c <= 'Z' {
      UpperCaseSymbols(c);
    } else if '0' <= c <= '9' {
      DigitSymbols(c);
    } else {
      SpecialLookup(c);
      SpecialShape(c);
    }
  }

  /** The newline character is the enter key. */
  lemma EnterSymbol()
    ensures '\n' in KeyCodes && Symbols('\n') == ["KEY_ENTER"]
  {
    assert KeyCodes['\n'] == "KEY_ENTER";
    KeyNameToken("KEY_ENTER");
  }
}
