/**
 * The quote-aware tokenizer of the run goal (`splitComplexArgumentString`): it trims a
 * raw option string and cuts it at whitespace, except inside a span opened by `"` or
 * `'`, which runs to the matching quote (or to the end). Quote characters stay in the
 * tokens.
 *
 * `Step`, `Scan` and `Flush` give the meaning of one loop iteration, of the whole loop
 * and of the final flush; `SplitComplexArgumentString` is the loop itself and is proved
 * to compute `Tokenize`. `Kept` and `Words` are independent descriptions of what the
 * tokens hold, and the lemmas below connect them to `Tokenize`.
 */
module Tokenizer {
  import opened JavaText

  /** The loop's state: the tokens emitted so far, the token being built (the
      `StringBuilder`), and the separator the loop waits for, where `' '` means any `\s`. */
  datatype ScanState = ScanState(args: seq<string>, sb: string, expectedSeparator: char)

  /** The state before the first character. */
  const Init: ScanState := ScanState([], [], ' ')

  predicate IsQuote(c: char)
  {
    c == '"' || c == '\''
  }

  /** The separators the loop can be waiting for. */
  predicate IsSeparatorState(sep: char)
  {
    sep == ' ' || IsQuote(sep)
  }

  /** Whether `item` is what the loop waits for when its pending separator is `sep`. */
  predicate EndsSpan(sep: char, item: char)
  {
    item == sep || (sep == ' ' && IsRegexSpace(item))
  }

  /** One iteration of the loop on character `item`, without the end-of-input flush. */
  function Step(st: ScanState, item: char): ScanState
  {
    if EndsSpan(st.expectedSeparator, item) then
      if IsQuote(st.expectedSeparator) then
        ScanState(st.args, st.sb + [item], ' ')
      else if st.expectedSeparator == ' ' && |st.sb| > 0 then
        ScanState(st.args + [st.sb], [], st.expectedSeparator)
      else
        st
    else
      ScanState(st.args, st.sb + [item],
        if st.expectedSeparator == ' ' && IsQuote(item) then item else st.expectedSeparator)
  }

  /** The loop run over all of `s`, starting from `st`. */
  function Scan(s: string, st: ScanState): ScanState
    decreases |s|
  {
    if s == [] then st else Scan(s[1..], Step(st, s[0]))
  }

  /** The token list once a non-empty pending token has been emitted. */
  function Flush(st: ScanState): seq<string>
  {
    if |st.sb| > 0 then st.args + [st.sb] else st.args
  }

  /** The tokens `splitComplexArgumentString` returns for `argumentString`. */
  function Tokenize(argumentString: string): seq<string>
  {
    Flush(Scan(Trim(argumentString), Init))
  }

  /** `splitComplexArgumentString`: the character loop with its `StringBuilder`, its
      `expectedSeparator` variable and its output list. */
  method SplitComplexArgumentString(argumentString: string) returns (splitedArgs: seq<string>)
    ensures splitedArgs == Tokenize(argumentString)
  {
    var strArr := Trim(argumentString);
    splitedArgs := [];
    var sb: string := [];
    var expectedSeparator := ' ';
    for i := 0 to |strArr|
      invariant i < |strArr| ==>
        Scan(strArr[i..], ScanState(splitedArgs, sb, expectedSeparator)) == Scan(strArr, Init)
      invariant i == |strArr| ==> splitedArgs == Tokenize(argumentString)
    {
      ghost var before := ScanState(splitedArgs, sb, expectedSeparator);
      assert strArr[i..][1..] == strArr[i + 1..];
      var item := strArr[i];
      if item == expectedSeparator || (expectedSeparator == ' ' && IsRegexSpace(item)) {
        if expectedSeparator == '"' || expectedSeparator == '\'' {
          sb := sb + [item];
          expectedSeparator := ' ';
        } else if expectedSeparator == ' ' && |sb| > 0 {
          splitedArgs := splitedArgs + [sb];
          sb := [];
        }
      } else {
        if expectedSeparator == ' ' && (item == '"' || item == '\'') {
          expectedSeparator := item;
        }
        sb := sb + [item];
      }
      assert ScanState(splitedArgs, sb, expectedSeparator) == Step(before, item);
      if i == |strArr| - 1 && |sb| > 0 {
        splitedArgs := splitedArgs + [sb];
      }
    }
  }

  // ---------------------------------------------------------------------------
  // Scanning in pieces

  /** Scanning `a + b` is scanning `a`, then `b` from where `a` left off. */
  lemma {:induction false} ScanAppend(a: string, b: string, st: ScanState)
    ensures Scan(a + b, st) == Scan(b, Scan(a, st))
    decreases |a|
  {
    if a != [] {
      assert (a + b)[1..] == a[1..] + b;
      ScanAppend(a[1..], b, Step(st, a[0]));
    } else {
      assert a + b == b;
    }
  }

  // ---------------------------------------------------------------------------
  // No empty tokens

  predicate AllNonEmpty(ts: seq<string>)
  {
    forall k :: 0 <= k < |ts| ==> ts[k] != []
  }

  /** The loop only ever appends to the token list, and only non-empty tokens. */
  lemma {:induction false} ScanAppendsNonEmpty(s: string, st: ScanState)
    requires AllNonEmpty(st.args)
    ensures st.args <= Scan(s, st).args
    ensures AllNonEmpty(Scan(s, st).args)
    decreases |s|
  {
    if s != [] {
      ScanAppendsNonEmpty(s[1..], Step(st, s[0]));
    }
  }

  /** No token is ever the empty string. */
  lemma TokensNonEmpty(argumentString: string)
    ensures AllNonEmpty(Tokenize(argumentString))
  {
    ScanAppendsNonEmpty(Trim(argumentString), Init);
  }

  // ---------------------------------------------------------------------------
  // What the tokens hold: the input minus the whitespace outside quote spans

  /** The quote automaton: the separator awaited after reading `c` while awaiting `sep`. */
  function NextSeparator(sep: char, c: char): char
  {
    if sep == ' ' then (if IsQuote(c) then c else ' ')
    else if c == sep then ' '
    else sep
  }

  /** `s` without the `\s` characters that lie outside quote spans, reading `s` from
      separator state `sep`. */
  function Kept(s: string, sep: char): string
    decreases |s|
  {
    if s == [] then []
    else (if sep == ' ' && IsRegexSpace(s[0]) then [] else [s[0]]) + Kept(s[1..], NextSeparator(sep, s[0]))
  }

  /** The concatenation of a list of tokens. */
  function Concat(ts: seq<string>): string
  {
    if ts == [] then [] else Concat(ts[..|ts| - 1]) + ts[|ts| - 1]
  }

  lemma StepKept(st: ScanState, c: char)
    requires IsSeparatorState(st.expectedSeparator)
    ensures Step(st, c).expectedSeparator == NextSeparator(st.expectedSeparator, c)
    ensures Concat(Step(st, c).args) + Step(st, c).sb
         == Concat(st.args) + st.sb + (if st.expectedSeparator == ' ' && IsRegexSpace(c) then [] else [c])
  {
    var st' := Step(st, c);
    if st.expectedSeparator == ' ' && IsRegexSpace(c) && |st.sb| > 0 {
      assert st'.args[..|st'.args| - 1] == st.args;
    }
  }

  /** Everything the loop reads ends up, in order, in the emitted or pending text, except
      the whitespace read outside quote spans. */
  lemma {:induction false} ScanKept(s: string, st: ScanState)
    requires IsSeparatorState(st.expectedSeparator)
    ensures Concat(Scan(s, st).args) + Scan(s, st).sb == Concat(st.args) + st.sb + Kept(s, st.expectedSeparator)
    decreases |s|
  {
    if s == [] {
      assert Concat(st.args) + st.sb + [] == Concat(st.args) + st.sb;
    } else {
      var sep := st.expectedSeparator;
      var st' := Step(st, s[0]);
      var piece := if sep == ' ' && IsRegexSpace(s[0]) then [] else [s[0]];
      var tail := Kept(s[1..], st'.expectedSeparator);
      var done := Scan(s[1..], st');
      StepKept(st, s[0]);
      assert Scan(s, st) == done;
      ScanKept(s[1..], st');
      assert Kept(s, sep) == piece + tail;
      AppendAssoc(Concat(st.args) + st.sb, piece, tail);
    }
  }

  lemma AppendAssoc(a: string, b: string, c: string)
    ensures a + b + c == a + (b + c)
  {
  }

  /** Joining the tokens back gives the trimmed input with exactly the whitespace outside
      quote spans removed; every other character, quotes included, is kept in order. */
  lemma TokenizeKept(argumentString: string)
    ensures Concat(Tokenize(argumentString)) == Kept(Trim(argumentString), ' ')
  {
    var st := Scan(Trim(argumentString), Init);
    ScanKept(Trim(argumentString), Init);
    assert Concat(Init.args) + Init.sb + Kept(Trim(argumentString), ' ') == Kept(Trim(argumentString), ' ');
    if |st.sb| > 0 {
      assert (st.args + [st.sb])[..|st.args|] == st.args;
      assert Concat(st.args + [st.sb]) == Concat(st.args) + st.sb;
    } else {
      assert Concat(st.args) + st.sb == Concat(st.args);
    }
  }

  /** The token list is empty exactly when the input is empty or made only of characters
      `trim()` strips (in particular when it is all `\s`). */
  lemma TokenizeEmpty(argumentString: string)
    ensures Tokenize(argumentString) == [] <==>
      forall k :: 0 <= k < |argumentString| ==> IsTrimmed(argumentString[k])
  {
    var t := Trim(argumentString);
    TrimEmpty(argumentString);
    if t != [] {
      TokenizeKept(argumentString);
      if IsRegexSpace(t[0]) {
        RegexSpaceIsTrimmed(t[0]);
      }
      assert Kept(t, ' ')[0] == t[0];
    }
  }

  // ---------------------------------------------------------------------------
  // Quote spans

  /** Inside a quote span every character other than the matching quote, whitespace and
      the other quote kind included, is appended verbatim; with no matching quote the
      span absorbs the rest of the input. */
  lemma {:induction false} UnterminatedQuote(s: string, st: ScanState)
    requires IsQuote(st.expectedSeparator)
    requires forall k :: 0 <= k < |s| ==> s[k] != st.expectedSeparator
    ensures Scan(s, st) == ScanState(st.args, st.sb + s, st.expectedSeparator)
    decreases |s|
  {
    if s != [] {
      UnterminatedQuote(s[1..], Step(st, s[0]));
      assert st.sb + [s[0]] + s[1..] == st.sb + s;
    }
  }

  /** Only the matching quote closes a span: it is appended and the loop goes back to
      cutting at whitespace. */
  lemma ClosingQuote(s: string, st: ScanState, k: nat)
    requires IsQuote(st.expectedSeparator)
    requires k < |s| && s[k] == st.expectedSeparator
    requires forall j :: 0 <= j < k ==> s[j] != st.expectedSeparator
    ensures Scan(s, st) == Scan(s[k + 1..], ScanState(st.args, st.sb + s[..k + 1], ' '))
  {
    assert s == s[..k] + ([s[k]] + s[k + 1..]);
    ScanAppend(s[..k], [s[k]] + s[k + 1..], st);
    UnterminatedQuote(s[..k], st);
    assert st.sb + s[..k] + [s[k]] == st.sb + s[..k + 1];
  }

  /** A quote read while cutting at whitespace opens a span; with no matching quote after
      it, the span takes the rest of the text. */
  lemma ScanOpenQuote(q: char, body: string, st: ScanState)
    requires st.expectedSeparator == ' ' && IsQuote(q)
    requires forall j :: 0 <= j < |body| ==> body[j] != q
    ensures Scan([q] + body, st) == ScanState(st.args, st.sb + [q] + body, q)
  {
    var openSpan := ScanState(st.args, st.sb + [q], q);
    ScanStep([q] + body, st, openSpan);
    assert ([q] + body)[1..] == body;
    UnterminatedQuote(body, openSpan);
  }

  /** Scanning a text whose quote at `k` opens a span that never closes. */
  lemma ScanUnterminated(t: string, k: nat)
    requires k < |t| && IsQuote(t[k])
    requires Scan(t[..k], Init).expectedSeparator == ' '
    requires forall j :: k < j < |t| ==> t[j] != t[k]
    ensures Flush(Scan(t, Init)) == Scan(t[..k], Init).args + [Scan(t[..k], Init).sb + t[k..]]
  {
    var head, q, rest := t[..k], t[k], t[k + 1..];
    var st := Scan(head, Init);
    forall j | 0 <= j < |rest| ensures rest[j] != q {
      assert rest[j] == t[k + 1 + j];
    }
    assert t[k..] == [q] + rest;
    assert t == head + t[k..];
    ScanAppend(head, t[k..], Init);
    ScanOpenQuote(q, rest, st);
    var last := Scan(t, Init);
    assert last == ScanState(st.args, st.sb + [q] + rest, q);
    assert st.sb + [q] + rest == st.sb + t[k..];
  }

  /** An unterminated quote is not an error: from the quote to the end of the trimmed
      input, whitespace included, everything joins the last token. */
  lemma TokenizeUnterminatedQuote(argumentString: string, k: nat)
    requires k < |Trim(argumentString)| && IsQuote(Trim(argumentString)[k])
    requires Scan(Trim(argumentString)[..k], Init).expectedSeparator == ' '
    requires forall j :: k < j < |Trim(argumentString)| ==> Trim(argumentString)[j] != Trim(argumentString)[k]
    ensures Tokenize(argumentString) ==
      Scan(Trim(argumentString)[..k], Init).args +
        [Scan(Trim(argumentString)[..k], Init).sb + Trim(argumentString)[k..]]
  {
    ScanUnterminated(Trim(argumentString), k);
  }

  // ---------------------------------------------------------------------------
  // Quote-free input: the tokens are the whitespace-separated words

  /** The longest prefix of `s` holding no `\s` character. */
  function LeadingWord(s: string): (w: string)
    ensures w <= s
    ensures forall k :: 0 <= k < |w| ==> !IsRegexSpace(w[k])
    ensures |w| < |s| ==> IsRegexSpace(s[|w|])
  {
    if s == [] || IsRegexSpace(s[0]) then [] else [s[0]] + LeadingWord(s[1..])
  }

  /** The maximal runs of non-`\s` characters of `s`, in order. */
  function Words(s: string): (ws: seq<string>)
    ensures forall k :: 0 <= k < |ws| ==> ws[k] != []
    ensures forall k, j :: 0 <= k < |ws| && 0 <= j < |ws[k]| ==> !IsRegexSpace(ws[k][j])
    decreases |s|
  {
    if s == [] then []
    else if IsRegexSpace(s[0]) then Words(s[1..])
    else [LeadingWord(s)] + Words(s[|LeadingWord(s)|..])
  }

  predicate NoSpace(s: string)
  {
    forall k :: 0 <= k < |s| ==> !IsRegexSpace(s[k])
  }

  predicate NoQuote(s: string)
  {
    forall k :: 0 <= k < |s| ==> !IsQuote(s[k])
  }

  lemma {:induction false} LeadingWordUpToSpace(w: string, s: string)
    requires NoSpace(w)
    requires s == [] || IsRegexSpace(s[0])
    ensures LeadingWord(w + s) == w
    decreases |w|
  {
    if w != [] {
      assert (w + s)[1..] == w[1..] + s;
      LeadingWordUpToSpace(w[1..], s);
    } else {
      assert w + s == s;
    }
  }

  /** A word followed by whitespace or by nothing is the first of the words. */
  lemma WordsAfterWord(w: string, s: string)
    requires w != [] && NoSpace(w)
    requires s == [] || IsRegexSpace(s[0])
    ensures Words(w + s) == [w] + Words(s)
  {
    LeadingWordUpToSpace(w, s);
    assert (w + s)[0] == w[0];
    assert (w + s)[|w|..] == s;
  }

  /** On quote-free input, scanning from a pending word `sb` emits the words of `sb + s`. */
  lemma {:induction false} ScanWords(s: string, args: seq<string>, sb: string)
    requires NoQuote(s) && NoSpace(sb)
    ensures Flush(Scan(s, ScanState(args, sb, ' '))) == args + Words(sb + s)
    decreases |s|
  {
    var st := ScanState(args, sb, ' ');
    if s == [] {
      assert sb + s == sb;
      if sb != [] {
        WordsAfterWord(sb, []);
        assert sb + [] == sb;
      }
    } else if IsRegexSpace(s[0]) {
      var next := ScanState(if sb != [] then args + [sb] else args, [], ' ');
      ScanStep(s, st, next);
      ScanWords(s[1..], next.args, []);
      assert [] + s[1..] == s[1..];
      assert Words(s) == Words(s[1..]);
      if sb != [] {
        WordsAfterWord(sb, s);
      } else {
        assert sb + s == s;
      }
    } else {
      assert !IsQuote(s[0]);
      ScanStep(s, st, ScanState(args, sb + [s[0]], ' '));
      ScanWords(s[1..], args, sb + [s[0]]);
      assert sb + [s[0]] + s[1..] == sb + s;
    }
  }

  /** Without quote characters the tokens are exactly the maximal runs of non-whitespace
      characters of the trimmed input, in order; none of them contains whitespace. */
  lemma TokenizeWords(argumentString: string)
    requires NoQuote(argumentString)
    ensures Tokenize(argumentString) == Words(Trim(argumentString))
  {
    var t := Trim(argumentString);
    forall k | 0 <= k < |t| ensures !IsQuote(t[k]) {
      assert t[k] == argumentString[TrimOffset(argumentString) + k];
    }
    ScanWords(t, [], []);
    assert [] + t == t;
  }

  // ---------------------------------------------------------------------------
  // Worked examples

  lemma ScanStep(s: string, st: ScanState, next: ScanState)
    requires s != [] && Step(st, s[0]) == next
    ensures Scan(s, st) == Scan(s[1..], next)
  {
  }

  /** A run of characters that are neither whitespace nor quotes extends the pending token. */
  lemma {:induction false} ScanPlainWord(w: string, args: seq<string>, sb: string)
    requires NoSpace(w) && NoQuote(w)
    ensures Scan(w, ScanState(args, sb, ' ')) == ScanState(args, sb + w, ' ')
    decreases |w|
  {
    if w != [] {
      ScanPlainWord(w[1..], args, sb + [w[0]]);
      assert sb + [w[0]] + w[1..] == sb + w;
    }
  }

  /** A closed quote span between two plain words is one token, quotes included, however
      many blanks it holds. */
  lemma ScanQuotedBetweenWords(first: string, q: char, body: string, last: string)
    requires IsQuote(q) && forall j :: 0 <= j < |body| ==> body[j] != q
    requires first != [] && NoSpace(first) && NoQuote(first) && NoSpace(last) && NoQuote(last)
    ensures Scan(first + ([' '] + ([q] + (body + ([q] + ([' '] + last))))), Init)
         == ScanState([first, [q] + body + [q]], last, ' ')
  {
    var rest5 := [' '] + last;
    var rest4 := [q] + rest5;
    var rest3 := body + rest4;
    var rest2 := [q] + rest3;
    var rest1 := [' '] + rest2;
    var quoted := [q] + body + [q];
    var afterFirst := ScanState([], first, ' ');
    var afterBlank := ScanState([first], [], ' ');
    var openSpan := ScanState([first], [q], q);
    var inside := ScanState([first], [q] + body, q);
    var closed := ScanState([first], quoted, ' ');
    var afterSecond := ScanState([first, quoted], [], ' ');
    ScanAppend(first, rest1, Init);
    ScanPlainWord(first, [], []);
    assert [] + first == first;
    assert rest1[1..] == rest2 && rest2[1..] == rest3 && rest4[1..] == rest5 && rest5[1..] == last;
    ScanStep(rest1, afterFirst, afterBlank);
    ScanStep(rest2, afterBlank, openSpan);
    ScanAppend(body, rest4, openSpan);
    UnterminatedQuote(body, openSpan);
    ScanStep(rest4, inside, closed);
    ScanStep(rest5, closed, afterSecond);
    ScanPlainWord(last, [first, quoted], []);
    assert [] + last == last;
  }

  /** A double-quoted span with a blank inside stays one token, quotes included. */
  lemma QuotedSpanExample(argumentString: string)
    requires argumentString == "a \"b c\" d"
    ensures Tokenize(argumentString) == ["a", "\"b c\"", "d"]
  {
    assert NoSpace("a") && NoQuote("a") && NoSpace("d") && NoQuote("d");
    assert "b c"[0] != '"' && "b c"[1] != '"' && "b c"[2] != '"';
    ScanQuotedBetweenWords("a", '"', "b c", "d");
    assert argumentString == "a" + ([' '] + (['"'] + ("b c" + (['"'] + ([' '] + "d")))));
    assert ['"'] + "b c" + ['"'] == "\"b c\"";
    TrimUnchanged(argumentString);
  }

  /** A text that opens a quote span at its first character and never closes it. */
  lemma ScanQuoteToEnd(q: char, body: string)
    requires IsQuote(q) && forall j :: 0 <= j < |body| ==> body[j] != q
    ensures Scan([q] + body, Init) == ScanState([], [q] + body, q)
  {
    ScanOpenQuote(q, body, Init);
    assert [] + [q] + body == [q] + body;
  }

  /** A quote that is never closed is accepted and kept. */
  lemma UnterminatedQuoteExample(argumentString: string)
    requires argumentString == "'unterminated"
    ensures Tokenize(argumentString) == ["'unterminated"]
  {
    var body := "unterminated";
    assert argumentString == ['\''] + body;
    assert forall j :: 0 <= j < |body| ==> body[j] != '\'';
    TrimUnchanged(argumentString);
    ScanQuoteToEnd('\'', body);
  }

  /** Blank input gives no tokens. */
  lemma BlankExample()
    ensures Tokenize("") == [] && Tokenize(" \t ") == []
  {
    TokenizeEmpty(" \t ");
  }

  /** A word of visible characters with no quote in it. */
  predicate IsPlainWord(w: string)
  {
    w != [] && forall k :: 0 <= k < |w| ==> !IsTrimmed(w[k]) && !IsQuote(w[k])
  }

  lemma PlainWordHasNoSpace(w: string)
    requires IsPlainWord(w)
    ensures NoSpace(w) && NoQuote(w)
  {
    forall k | 0 <= k < |w| ensures !IsRegexSpace(w[k]) {
      if IsRegexSpace(w[k]) {
        RegexSpaceIsTrimmed(w[k]);
      }
    }
  }

  /** A plain word is one token. */
  lemma TokenizePlainWord(w: string)
    requires IsPlainWord(w)
    ensures Tokenize(w) == [w]
  {
    PlainWordHasNoSpace(w);
    TrimUnchanged(w);
    ScanPlainWord(w, [], []);
    assert [] + w == w;
  }

  /** Two plain words separated by one blank. */
  lemma ScanTwoWords(first: string, second: string)
    requires first != [] && NoSpace(first) && NoQuote(first) && NoSpace(second) && NoQuote(second)
    ensures Scan(first + ([' '] + second), Init) == ScanState([first], second, ' ')
  {
    ScanAppend(first, [' '] + second, Init);
    ScanPlainWord(first, [], []);
    assert [] + first == first;
    ScanStep([' '] + second, ScanState([], first, ' '), ScanState([first], [], ' '));
    assert ([' '] + second)[1..] == second;
    ScanPlainWord(second, [first], []);
    assert [] + second == second;
  }

  /** Two plain words separated by one blank are two tokens. */
  lemma TokenizeTwoPlainWords(first: string, second: string)
    requires IsPlainWord(first) && IsPlainWord(second)
    ensures Tokenize(first + ([' '] + second)) == [first, second]
  {
    PlainWordHasNoSpace(first);
    PlainWordHasNoSpace(second);
    var t := first + ([' '] + second);
    assert t[0] == first[0] && t[|t| - 1] == second[|second| - 1];
    TrimUnchanged(t);
    ScanTwoWords(first, second);
  }

  /** An option without blanks or quotes is one token. */
  lemma PlainOptionExample(option: string)
    requires option == "-Dfoo=bar"
    ensures Tokenize(option) == ["-Dfoo=bar"]
  {
    assert IsPlainWord(option);
    TokenizePlainWord(option);
  }

  /** Plain arguments split at the blank between them. */
  lemma PlainArgumentsExample(args: string)
    requires args == "--flag value"
    ensures Tokenize(args) == ["--flag", "value"]
  {
    var flag, value := "--flag", "value";
    assert args == flag + ([' '] + value);
    assert IsPlainWord(flag) && IsPlainWord(value);
    TokenizeTwoPlainWords(flag, value);
  }

}
