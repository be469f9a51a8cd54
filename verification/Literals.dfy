/** Escaping of string literals for output: quotes and control characters come out escaped, escapes
    that are there already stay. */
module Literals {

  const BACKSLASH: char := '\\'
  const BACKSPACE: char := '\U{08}'
  const FORM_FEED: char := '\U{0c}'
  const VERTICAL_TAB: char := '\U{0b}'

  // The letter that stands for a control character after a backslash.
  function Letter(c: char): char
    requires IsControl(c)
  {
    if c == BACKSPACE then 'b' else if c == FORM_FEED then 'f' else if c == '\n' then 'n'
    else if c == '\r' then 'r' else if c == '\t' then 't' else 'v'
  }

  predicate IsControl(c: char) {
    c in {BACKSPACE, FORM_FEED, '\n', '\r', '\t', VERTICAL_TAB}
  }

  // What a character after a backslash stands for, if it is one of those that are translated.
  predicate IsTranslated(c: char) {
    c in {'b', 'f', 'n', 'r', 't', 'v', '\'', '"'}
  }

  function Translate(c: char): char
    requires IsTranslated(c)
  {
    if c == 'b' then BACKSPACE else if c == 'f' then FORM_FEED else if c == 'n' then '\n'
    else if c == 'r' then '\r' else if c == 't' then '\t' else if c == 'v' then VERTICAL_TAB else c
  }

  // A character as it is put out.
  function Out(c: char): string {
    if c == '"' then [BACKSLASH, '"'] else if IsControl(c) then [BACKSLASH, Letter(c)] else [c]
  }

  // The output for the rest of a string, after a backslash or not.
  function Encoded(s: string, esc: bool): string {
    if s == "" then ""
    else if esc then
      (if IsTranslated(s[0]) then Out(Translate(s[0])) else [BACKSLASH] + Out(s[0])) + Encoded(s[1..], false)
    else if s[0] == BACKSLASH then Encoded(s[1..], true)
    else Out(s[0]) + Encoded(s[1..], false)
  }

  method EncodeLiteral(str: string) returns (enc: string)
    ensures enc == Encoded(str, false)
  {
    enc := "";
    var esc := false;
    for i := 0 to |str|
      invariant enc + Encoded(str[i..], esc) == Encoded(str, false)
    {
      var c := str[i];
      assert str[i..][0] == c && str[i..][1..] == str[i + 1..];
      if esc {
        if IsTranslated(c) {
          c := Translate(c);
        } else {
          enc := enc + [BACKSLASH];
        }
        esc := false;
        enc := enc + Out(c);
      } else if c == BACKSLASH {
        esc := true;
      } else {
        enc := enc + Out(c);
      }
    }
  }

  // -------- What a string denotes

  // The single-character escapes of section 12.8.4 of ECMA-262 (12th edition) that are looked at, and
  // the code points they stand for.
  const ESCAPES: map<char, char> := map['b' := '\U{08}', 't' := '\U{09}', 'n' := '\U{0a}', 'v' := '\U{0b}', 'f' := '\U{0c}',
                                        'r' := '\U{0d}', '"' := '\U{22}', '\'' := '\U{27}']

  lemma TranslateIs(c: char)
    ensures IsTranslated(c) <==> c in ESCAPES
    ensures IsTranslated(c) ==> Translate(c) == ESCAPES[c]
    ensures IsControl(c) <==> '\U{08}' <= c <= '\U{0d}'
    ensures IsControl(c) ==> IsTranslated(Letter(c)) && Translate(Letter(c)) == c
  {
  }

  // A character, or an escape that is not looked at.
  datatype Sym = Ch(c: char) | Kept(c: char)

  // A backslash at the end denotes nothing.
  function Denotes(s: string, esc: bool): seq<Sym> {
    if s == "" then []
    else if esc then [if s[0] in ESCAPES then Ch(ESCAPES[s[0]]) else Kept(s[0])] + Denotes(s[1..], false)
    else if s[0] == BACKSLASH then Denotes(s[1..], true)
    else [Ch(s[0])] + Denotes(s[1..], false)
  }

  // Control characters right after a backslash.
  function EscapedControls(s: string, esc: bool): nat {
    if s == "" then 0
    else (if esc && IsControl(s[0]) then 1 else 0) + EscapedControls(s[1..], !esc && s[0] == BACKSLASH)
  }

  lemma OutDenotes(c: char, rest: string)
    requires c != BACKSLASH
    ensures Denotes(Out(c) + rest, false) == [Ch(c)] + Denotes(rest, false)
  {
    hide ESCAPES;
    var s := Out(c) + rest;
    TranslateIs(c);
    TranslateIs('"');
    if |Out(c)| == 2 {
      if IsControl(c) { TranslateIs(Letter(c)); }
      assert s[1..] == [Out(c)[1]] + rest && s[1..][1..] == rest;
    } else {
      assert s[1..] == rest;
    }
  }

  lemma KeptDenotes(c: char, rest: string)
    requires !IsTranslated(c)
    ensures Denotes([BACKSLASH] + Out(c) + rest, false) ==
            (if IsControl(c) then [Kept(BACKSLASH), Ch(Letter(c))] else [Kept(c)]) + Denotes(rest, false)
  {
    hide ESCAPES;
    var s := [BACKSLASH] + Out(c) + rest;
    assert s[1..] == Out(c) + rest;
    TranslateIs(c);
    TranslateIs(BACKSLASH);
    if IsControl(c) {
      var t := [Letter(c)] + rest;
      assert s[1..][1..] == t && t[1..] == rest;
      assert Denotes(t, false) == [Ch(Letter(c))] + Denotes(rest, false);
      assert Denotes(s[1..], true) == [Kept(BACKSLASH)] + Denotes(t, false);
      assert [Kept(BACKSLASH)] + ([Ch(Letter(c))] + Denotes(rest, false)) == [Kept(BACKSLASH), Ch(Letter(c))] + Denotes(rest, false);
    } else {
      assert s[1..][1..] == rest;
    }
  }

  // Every control character right after a backslash denotes one symbol more in the output; with none,
  // the output denotes what the string denotes.
  lemma {:induction false} EncodedDenotes(s: string, esc: bool)
    ensures |Denotes(Encoded(s, esc), false)| == |Denotes(s, esc)| + EscapedControls(s, esc)
    ensures EscapedControls(s, esc) == 0 ==> Denotes(Encoded(s, esc), false) == Denotes(s, esc)
    decreases |s|
  {
    hide ESCAPES;
    if s != "" {
      TranslateIs(s[0]);
      EncodedDenotes(s[1..], !esc && s[0] == BACKSLASH);
      if esc && IsTranslated(s[0]) {
        OutDenotes(Translate(s[0]), Encoded(s[1..], false));
      } else if esc {
        KeptDenotes(s[0], Encoded(s[1..], false));
      } else if s[0] != BACKSLASH {
        OutDenotes(s[0], Encoded(s[1..], false));
      }
    }
  }

  // Escaping keeps the meaning exactly when no control character stands right after a backslash.
  lemma EscapingKeepsMeaning(s: string)
    ensures Denotes(Encoded(s, false), false) == Denotes(s, false) <==> EscapedControls(s, false) == 0
  {
    EncodedDenotes(s, false);
  }

  // What is put out for a symbol.
  function Shown(x: Sym): string {
    match x
    case Ch(c) => Out(c)
    case Kept(c) => [BACKSLASH] + Out(c)
  }

  function AllShown(xs: seq<Sym>): string {
    if xs == [] then "" else Shown(xs[0]) + AllShown(xs[1..])
  }

  lemma {:induction false} EncodedIsShown(s: string, esc: bool)
    ensures Encoded(s, esc) == AllShown(Denotes(s, esc))
    decreases |s|
  {
    hide ESCAPES;
    if s != "" {
      TranslateIs(s[0]);
      EncodedIsShown(s[1..], !esc && s[0] == BACKSLASH);
      if esc || s[0] != BACKSLASH {
        var x := Denotes(s, esc)[0];
        assert Denotes(s, esc)[1..] == Denotes(s[1..], false);
        assert AllShown(Denotes(s, esc)) == Shown(x) + Encoded(s[1..], false);
      }
    }
  }

  // However a string is written, with escapes or without, the output for it is the same.
  lemma SameMeaningSameOutput(s: string, t: string)
    requires Denotes(s, false) == Denotes(t, false)
    ensures Encoded(s, false) == Encoded(t, false)
  {
    EncodedIsShown(s, false);
    EncodedIsShown(t, false);
  }

  // -------- The output

  // Double quotes stand after a backslash only, single ones never right after one that escapes, code points
  // U+0008 to U+000D nowhere, and no backslash is left over.
  predicate Quotable(s: string, esc: bool) {
    if s == "" then !esc
    else
      && !('\U{08}' <= s[0] <= '\U{0d}') && (s[0] == '"' ==> esc) && (s[0] == '\'' ==> !esc)
      && Quotable(s[1..], !esc && s[0] == BACKSLASH)
  }

  lemma OutQuotable(c: char, rest: string)
    requires c != BACKSLASH && Quotable(rest, false)
    ensures Quotable(Out(c) + rest, false)
  {
    var s := Out(c) + rest;
    if |Out(c)| == 2 {
      assert s[1..] == [Out(c)[1]] + rest && s[1..][1..] == rest;
    } else {
      assert s[1..] == rest;
    }
  }

  // Between quotes, the output ends where it should.
  lemma {:induction false} EncodedIsQuotable(s: string, esc: bool)
    ensures Quotable(Encoded(s, esc), false)
    decreases |s|
  {
    if s != "" {
      EncodedIsQuotable(s[1..], !esc && s[0] == BACKSLASH);
      var rest := Encoded(s[1..], !esc && s[0] == BACKSLASH);
      if esc && !IsTranslated(s[0]) {
        var t := [BACKSLASH] + Out(s[0]) + rest;
        assert t[1..] == Out(s[0]) + rest;
        if IsControl(s[0]) {
          assert t[1..][1..] == [Letter(s[0])] + rest && t[1..][1..][1..] == rest;
        } else {
          assert t[1..][1..] == rest;
        }
      } else if esc {
        OutQuotable(Translate(s[0]), rest);
      } else if s[0] != BACKSLASH {
        OutQuotable(s[0], rest);
      }
    }
  }

  lemma OutFixed(c: char, rest: string)
    requires c != BACKSLASH
    ensures Encoded(Out(c) + rest, false) == Out(c) + Encoded(rest, false)
  {
    var s := Out(c) + rest;
    if |Out(c)| == 2 {
      assert s[1..] == [Out(c)[1]] + rest && s[1..][1..] == rest;
    } else {
      assert s[1..] == rest;
    }
  }

  lemma KeptFixed(c: char, rest: string)
    requires !IsTranslated(c)
    ensures Encoded([BACKSLASH] + Out(c) + rest, false) == [BACKSLASH] + Out(c) + Encoded(rest, false)
  {
    var s := [BACKSLASH] + Out(c) + rest;
    assert s[1..] == Out(c) + rest;
    if IsControl(c) {
      var t := [Letter(c)] + rest;
      assert s[1..][1..] == t && t[1..] == rest;
      assert Encoded(t, false) == [Letter(c)] + Encoded(rest, false);
      assert Encoded(s[1..], true) == [BACKSLASH] + Out(BACKSLASH) + Encoded(t, false);
    } else {
      assert s[1..][1..] == rest;
    }
  }

  // What has been escaped is not escaped again.
  lemma {:induction false} EncodedIsFixed(s: string, esc: bool)
    ensures Encoded(Encoded(s, esc), false) == Encoded(s, esc)
    decreases |s|
  {
    if s != "" {
      var rest := Encoded(s[1..], !esc && s[0] == BACKSLASH);
      EncodedIsFixed(s[1..], !esc && s[0] == BACKSLASH);
      if esc && IsTranslated(s[0]) {
        OutFixed(Translate(s[0]), rest);
      } else if esc {
        KeptFixed(s[0], rest);
      } else if s[0] != BACKSLASH {
        OutFixed(s[0], rest);
      }
    }
  }
}
