/**
 * The failure detail shown for a server: provider text cut to size, stripped of bidirectional
 * controls, redacted word by word and sanitized.
 */
module McpDetail {
  import opened Wrappers
  import opened Text
  import opened EndpointOrigin

  const MAX_DETAIL_BYTES: nat := 256
  const MAX_RAW_BYTES: nat := 4096
  const MIN_TOKEN_RUN: nat := 16
  const MIN_LETTER_RUN: nat := 32
  const REDACTED := "[redacted]"

  predicate IsBidiControl(c: char) {
    var code := c as int;
    code == 0x200E || code == 0x200F || 0x202A <= code <= 0x202E || 0x2066 <= code <= 0x2069
  }

  predicate IsSchemeChar(c: char) { IsAlphanumeric(c) || c in {'+', '-', '.'} }

  predicate IsTokenChar(c: char) { IsAlphanumeric(c) || c in {'_', '+', '-'} }

  predicate IsWrapping(c: char) {
    c in {'"', '\'', '`', '(', ')', '[', ']', '{', '}', '<', '>', ',', ';', ':', '.', '!', '?'}
  }

  // ---------------------------------------------------------------- sensitive text

  predicate IsSensitiveRun(run: string) {
    |run| >= MIN_TOKEN_RUN && (|run| >= MIN_LETTER_RUN || exists i :: 0 <= i < |run| && IsDigit(run[i]))
  }

  /** The length of the token run that ends the text. */
  function RunAtEnd(text: string): (n: nat)
    ensures n <= |text|
  {
    if text == [] || !IsTokenChar(text[|text| - 1]) then 0 else RunAtEnd(text[..|text| - 1]) + 1
  }

  /** Some maximal run of token characters is sensitive. */
  predicate HasSensitiveRun(text: string) {
    && text != []
    && if IsTokenChar(text[|text| - 1]) then
         var start := |text| - RunAtEnd(text);
         IsSensitiveRun(text[start..]) || HasSensitiveRun(text[..start])
       else HasSensitiveRun(text[..|text| - 1])
  }

  /** The characters between these indices are all token characters, and enough of them to be sensitive. */
  predicate SensitiveBetween(text: string, i: nat, j: nat) {
    i <= j <= |text| && (forall k :: i <= k < j ==> IsTokenChar(text[k])) && IsSensitiveRun(text[i..j])
  }

  lemma {:induction false} RunAtEndIsRun(text: string)
    ensures var n := RunAtEnd(text);
            && (forall k :: |text| - n <= k < |text| ==> IsTokenChar(text[k]))
            && (n < |text| ==> !IsTokenChar(text[|text| - n - 1]))
  {
    if text != [] && IsTokenChar(text[|text| - 1]) {
      RunAtEndIsRun(text[..|text| - 1]);
    }
  }

  /** What reaches further on both sides of a sensitive stretch is sensitive. */
  lemma SensitiveGrows(text: string, start: nat, i: nat, j: nat)
    requires start <= i <= j <= |text| && IsSensitiveRun(text[i..j])
    ensures IsSensitiveRun(text[start..])
  {
    if |text| - start < MIN_LETTER_RUN {
      var k :| 0 <= k < j - i && IsDigit(text[i..j][k]);
      assert text[start..][i - start + k] == text[i + k] == text[i..j][k];
    }
  }

  /** A stretch of token characters that reaches into the last run starts within it. */
  lemma StretchInLastRun(text: string, i: nat, j: nat)
    requires i <= j <= |text| && (forall k :: i <= k < j ==> IsTokenChar(text[k])) && j > |text| - RunAtEnd(text)
    ensures i >= |text| - RunAtEnd(text)
  {
    RunAtEndIsRun(text);
  }

  lemma SensitiveInLastRun(text: string, i: nat, j: nat)
    requires SensitiveBetween(text, i, j) && j > |text| - RunAtEnd(text)
    ensures IsSensitiveRun(text[|text| - RunAtEnd(text)..])
  {
    StretchInLastRun(text, i, j);
    SensitiveGrows(text, |text| - RunAtEnd(text), i, j);
  }

  lemma SensitiveEndsInToken(text: string, i: nat, j: nat)
    requires SensitiveBetween(text, i, j)
    ensures j > 0 && IsTokenChar(text[j - 1])
  {
  }

  /** The search over maximal runs finds exactly the texts with a sensitive stretch of token characters. */
  lemma {:induction false} SensitiveRunIff(text: string)
    ensures HasSensitiveRun(text) <==> exists i: nat, j: nat :: SensitiveBetween(text, i, j)
  {
    if text != [] {
      var start := if IsTokenChar(text[|text| - 1]) then |text| - RunAtEnd(text) else |text| - 1;
      SensitiveRunIff(text[..start]);
      RunAtEndIsRun(text);
      if i: nat, j: nat :| SensitiveBetween(text[..start], i, j) {
        assert text[..start][i..j] == text[i..j];
        assert SensitiveBetween(text, i, j);
      }
      if i: nat, j: nat :| SensitiveBetween(text, i, j) {
        if j <= start {
          assert text[..start][i..j] == text[i..j];
          assert SensitiveBetween(text[..start], i, j);
        } else {
          SensitiveEndsInToken(text, i, j);
          SensitiveInLastRun(text, i, j);
        }
      }
      if IsTokenChar(text[|text| - 1]) && IsSensitiveRun(text[start..]) {
        assert text[start..|text|] == text[start..];
        assert SensitiveBetween(text, start, |text|);
      }
    }
  }

  predicate IsSensitive(text: string) {
    || (exists i :: 0 <= i < |text| && text[i] in {'/', '\\', '=', '@'})
    || HasSensitiveRun(text)
  }

  // ---------------------------------------------------------------- option words

  function TrimWrappingStart(s: string): string {
    if s == [] || !IsWrapping(s[0]) then s else TrimWrappingStart(s[1..])
  }

  function TrimWrappingEnd(s: string): string {
    if s == [] || !IsWrapping(s[|s| - 1]) then s else TrimWrappingEnd(s[..|s| - 1])
  }

  function TrimDashes(s: string): string {
    if s == [] || s[0] != '-' then s else TrimDashes(s[1..])
  }

  predicate IsNegativeNumber(word: string) {
    && word != [] && word[0] == '-'
    && (exists i :: 1 <= i < |word| && IsDigit(word[i]))
    && (forall i :: 1 <= i < |word| ==> IsDigit(word[i]) || word[i] == '.')
  }

  predicate IsOptionWord(word: string) {
    var bare := TrimWrappingStart(TrimWrappingEnd(word));
    && bare != [] && bare[0] == '-' && !IsNegativeNumber(bare)
    && var name := TrimDashes(bare);
       name != [] && IsAlphanumeric(name[0])
  }

  // ---------------------------------------------------------------- one word

  /** The first index of "://", or none. */
  function SchemeSeparator(word: string): (at: Option<nat>)
    ensures at.Some? ==> at.value + 3 <= |word|
  {
    if |word| < 3 then None
    else if word[..3] == "://" then Some(0)
    else
      match SchemeSeparator(word[1..])
      case None => None
      case Some(i) => Some(i + 1)
  }

  /** Where the scheme characters that end the text begin. */
  function SchemeStart(text: string): (at: nat)
    ensures at <= |text|
  {
    if text == [] || !IsSchemeChar(text[|text| - 1]) then |text| else SchemeStart(text[..|text| - 1])
  }

  function RedactedWord(word: string): string {
    match SchemeSeparator(word)
    case None => if IsSensitive(word) then REDACTED else word
    case Some(separator) =>
      var start := SchemeStart(word[..separator]);
      if IsSensitive(word[..start]) then REDACTED
      else
        var origin := Origin(word[start..]);
        word[..start] + if origin.Some? then origin.value else REDACTED
  }

  // ---------------------------------------------------------------- all words

  datatype Redaction = Redaction(words: seq<string>, redactNext: bool)

  /** Adds a word unless it repeats a redaction. */
  function Append(words: seq<string>, replacement: string): seq<string> {
    if replacement == REDACTED && words != [] && words[|words| - 1] == REDACTED then words else words + [replacement]
  }

  function Push(r: Redaction, word: string): Redaction {
    var option := IsOptionWord(word);
    Redaction(Append(r.words, if r.redactNext || option then REDACTED else RedactedWord(word)), option)
  }

  function PushAll(words: seq<string>): Redaction {
    if words == [] then Redaction([], false) else Push(PushAll(words[..|words| - 1]), words[|words| - 1])
  }

  /** What stands for word i: options, and whatever follows one, are redacted outright. */
  function Replacement(words: seq<string>, i: nat): string
    requires i < |words|
  {
    if IsOptionWord(words[i]) || (i > 0 && IsOptionWord(words[i - 1])) then REDACTED else RedactedWord(words[i])
  }

  function Replacements(words: seq<string>): seq<string> {
    seq(|words|, i requires 0 <= i < |words| => Replacement(words, i))
  }

  /** Runs of redactions reduced to one. */
  function Collapsed(texts: seq<string>): seq<string> {
    var last := |texts| - 1;
    if texts == [] then []
    else if last > 0 && texts[last] == REDACTED && texts[last - 1] == REDACTED then Collapsed(texts[..last])
    else Collapsed(texts[..last]) + [texts[last]]
  }

  /** The last text kept is the last text. */
  lemma {:induction false} CollapsedEnds(texts: seq<string>)
    requires texts != []
    ensures Collapsed(texts) != [] && Collapsed(texts)[|Collapsed(texts)| - 1] == texts[|texts| - 1]
  {
    if |texts| > 1 {
      CollapsedEnds(texts[..|texts| - 1]);
    }
  }

  lemma CollapsedSnoc(texts: seq<string>, t: string)
    ensures Collapsed(texts + [t]) == Append(Collapsed(texts), t)
  {
    assert (texts + [t])[..|texts|] == texts;
    if texts != [] {
      CollapsedEnds(texts);
    }
  }

  lemma ReplacementsSnoc(words: seq<string>)
    requires words != []
    ensures Replacements(words) == Replacements(words[..|words| - 1]) + [Replacement(words, |words| - 1)]
  {
  }

  /** The fold with its carried flag is the word-by-word replacement, runs of redactions reduced. */
  lemma {:induction false} RedactionIsWordByWord(words: seq<string>)
    ensures PushAll(words).words == Collapsed(Replacements(words))
    ensures PushAll(words).redactNext <==> words != [] && IsOptionWord(words[|words| - 1])
  {
    if words != [] {
      var before := words[..|words| - 1];
      RedactionIsWordByWord(before);
      PushReplaces(PushAll(before), words);
      ReplacementsSnoc(words);
      CollapsedSnoc(Replacements(before), Replacement(words, |words| - 1));
    }
  }

  /** One more word, when the flag tells whether an option came before it. */
  lemma PushReplaces(r: Redaction, words: seq<string>)
    requires words != [] && (r.redactNext <==> |words| > 1 && IsOptionWord(words[|words| - 2]))
    ensures Push(r, words[|words| - 1]) ==
            Redaction(Append(r.words, Replacement(words, |words| - 1)), IsOptionWord(words[|words| - 1]))
  {
  }

  // ---------------------------------------------------------------- the detail

  /** The index of the last separator, or zero when there is none: where cut text ends. */
  function LastSeparator(s: string): (at: nat)
    ensures at <= |s|
  {
    if s == [] then 0 else if IsSeparator(s[|s| - 1]) then |s| - 1 else LastSeparator(s[..|s| - 1])
  }

  /** Raw text that is cut ends before its last, possibly partial, word. */
  function BoundedRaw(raw: string): string {
    var prefix := Prefix(raw, MAX_RAW_BYTES);
    if prefix == raw then prefix else prefix[..LastSeparator(prefix)]
  }

  function Visible(s: string): string {
    if s == [] then []
    else
      var rest := Visible(s[..|s| - 1]);
      if IsBidiControl(s[|s| - 1]) then rest else rest + [s[|s| - 1]]
  }

  function RedactedText(raw: string): string {
    Join(PushAll(Words(Visible(BoundedRaw(raw)))).words)
  }

  function FailureDetail(failed: bool, raw: Option<string>): Option<string> {
    if !failed || raw.None? then None else Sanitized(RedactedText(raw.value), MAX_DETAIL_BYTES)
  }

  predicate IsValidDetail(detail: string) {
    BoundedText(detail, MAX_DETAIL_BYTES) && forall i :: 0 <= i < |detail| ==> !IsBidiControl(detail[i])
  }

  // ---------------------------------------------------------------- what survives

  /** Characters that redacted text may hold. */
  predicate IsShown(c: char) { !IsBidiControl(c) && c !in {'\\', '=', '@'} }

  predicate Shows(s: string) { forall i :: 0 <= i < |s| ==> IsShown(s[i]) }

  lemma {:induction false} VisibleHasNoBidi(s: string)
    ensures forall i :: 0 <= i < |Visible(s)| ==> !IsBidiControl(Visible(s)[i])
  {
    if s != [] {
      VisibleHasNoBidi(s[..|s| - 1]);
    }
  }

  lemma OriginCharIsShown(c: char)
    requires IsOriginChar(c)
    ensures IsShown(c)
  {}

  lemma OriginShows(url: string)
    requires Origin(url).Some?
    ensures Shows(Origin(url).value)
  {
    forall i | 0 <= i < |Origin(url).value| ensures IsShown(Origin(url).value[i]) {
      OriginCharacters(url, i);
      OriginCharIsShown(Origin(url).value[i]);
    }
  }

  lemma RedactedShows()
    ensures Shows(REDACTED)
  {
    forall i | 0 <= i < |REDACTED| ensures IsShown(REDACTED[i]) {
      assert IsAlphanumeric(REDACTED[i]) || REDACTED[i] in {'[', ']'};
    }
  }

  predicate NoBidi(s: string) { forall i :: 0 <= i < |s| ==> !IsBidiControl(s[i]) }

  lemma InsensitiveShows(text: string)
    requires !IsSensitive(text) && NoBidi(text)
    ensures Shows(text)
  {
    forall i | 0 <= i < |text| ensures IsShown(text[i]) {
      assert text[i] !in {'/', '\\', '=', '@'};
    }
  }

  lemma RedactedWordShows(word: string)
    requires NoBidi(word)
    ensures Shows(RedactedWord(word))
  {
    RedactedShows();
    match SchemeSeparator(word)
    case None => if !IsSensitive(word) { InsensitiveShows(word); }
    case Some(separator) =>
      var start := SchemeStart(word[..separator]);
      if !IsSensitive(word[..start]) {
        InsensitiveShows(word[..start]);
        if Origin(word[start..]).Some? { OriginShows(word[start..]); }
      }
  }

  lemma {:induction false} RedactionShows(words: seq<string>)
    requires forall w :: w in words ==> NoBidi(w)
    ensures forall w :: w in PushAll(words).words ==> Shows(w)
  {
    if words != [] {
      var before, last := words[..|words| - 1], words[|words| - 1];
      assert words == before + [last];
      RedactionShows(before);
      RedactedShows();
      RedactedWordShows(last);
    }
  }

  lemma VisibleWords(s: string)
    ensures forall w :: w in Words(Visible(s)) ==> NoBidi(w)
  {
    VisibleHasNoBidi(s);
    forall w | w in Words(Visible(s)) ensures NoBidi(w) {
      forall i | 0 <= i < |w| ensures !IsBidiControl(w[i]) {
        SplitHasOnlyItsCharacters(Visible(s), w[i]);
        var k :| 0 <= k < |Visible(s)| && Visible(s)[k] == w[i];
      }
    }
  }

  lemma RedactedTextShows(raw: string, c: char)
    requires c in RedactedText(raw) && c != ' '
    ensures IsShown(c)
  {
    var words := Words(Visible(BoundedRaw(raw)));
    VisibleWords(BoundedRaw(raw));
    RedactionShows(words);
    JoinHasOnlyItsCharacters(PushAll(words).words, c);
    var i :| 0 <= i < |PushAll(words).words| && c in PushAll(words).words[i];
    assert PushAll(words).words[i] in PushAll(words).words;
  }

  /**
   * Whatever a provider sends, the detail is valid: bounded, trimmed, without controls of either
   * kind; and no user information, assignment or back slash survives in it.
   */
  lemma DetailIsValid(failed: bool, raw: Option<string>)
    requires FailureDetail(failed, raw).Some?
    ensures IsValidDetail(FailureDetail(failed, raw).value) && Shows(FailureDetail(failed, raw).value)
    ensures BoundedText(FailureDetail(failed, raw).value, 256)
  {
    var detail := FailureDetail(failed, raw).value;
    SanitizedIsBounded(RedactedText(raw.value), MAX_DETAIL_BYTES);
    forall i | 0 <= i < |detail| ensures IsShown(detail[i]) {
      if detail[i] != ' ' {
        SanitizedHasOnlyItsCharacters(RedactedText(raw.value), MAX_DETAIL_BYTES, detail[i]);
        RedactedTextShows(raw.value, detail[i]);
      }
    }
  }

  // ---------------------------------------------------------------- word by word

  /** The first k characters are harmless, and the rest is an origin or redacted. */
  predicate EndsInOrigin(w: string, k: nat) {
    k <= |w| && !IsSensitive(w[..k]) && (w[k..] == REDACTED || Origin(w[k..]) == Some(w[k..]))
  }

  /** Redacted, or free of paths, assignments, addresses and token runs, up to an origin at its end. */
  ghost predicate IsHarmless(w: string) {
    w == REDACTED || !IsSensitive(w) || exists k: nat :: EndsInOrigin(w, k)
  }

  lemma RedactedWordIsHarmless(word: string)
    ensures IsHarmless(RedactedWord(word))
  {
    match SchemeSeparator(word)
    case None =>
    case Some(separator) =>
      var start := SchemeStart(word[..separator]);
      if !IsSensitive(word[..start]) {
        var origin := Origin(word[start..]);
        if origin.Some? {
          OriginIsIdempotent(word[start..]);
        }
        var shown := if origin.Some? then origin.value else REDACTED;
        var w := word[..start] + shown;
        assert w[..start] == word[..start] && w[start..] == shown;
        assert EndsInOrigin(w, start);
      }
  }

  lemma RedactedIsWord()
    ensures IsWord(REDACTED)
  {
    forall i | 0 <= i < |REDACTED| ensures !IsSeparator(REDACTED[i]) {
      assert IsAlphanumeric(REDACTED[i]) || REDACTED[i] in {'[', ']'};
    }
  }

  lemma OriginIsWord(url: string)
    requires Origin(url).Some?
    ensures IsWord(Origin(url).value)
  {
    var scheme, authority := OriginShape(url);
    var origin := Origin(url).value;
    assert |origin| > |scheme|;
    forall i | 0 <= i < |origin| ensures !IsSeparator(origin[i]) {
      OriginCharacters(url, i);
      OriginCharIsNoSeparator(origin[i]);
    }
  }

  lemma OriginCharIsNoSeparator(c: char)
    requires IsOriginChar(c)
    ensures !IsSeparator(c)
  {
  }

  lemma RedactedWordIsWord(word: string)
    requires IsWord(word)
    ensures IsWord(RedactedWord(word))
  {
    RedactedIsWord();
    match SchemeSeparator(word)
    case None =>
    case Some(separator) =>
      var start := SchemeStart(word[..separator]);
      var origin := Origin(word[start..]);
      if origin.Some? {
        OriginIsWord(word[start..]);
      }
      EndsInWord(word[..start], if origin.Some? then origin.value else REDACTED);
  }

  lemma EndsInWord(a: string, b: string)
    requires NoSeparators(a) && IsWord(b)
    ensures IsWord(a + b)
  {
  }

  lemma {:induction false} RedactionIsHarmless(words: seq<string>)
    requires forall i :: 0 <= i < |words| ==> IsWord(words[i])
    ensures forall i :: 0 <= i < |PushAll(words).words| ==> IsWord(PushAll(words).words[i]) && IsHarmless(PushAll(words).words[i])
  {
    if words != [] {
      RedactionIsHarmless(words[..|words| - 1]);
      RedactedIsWord();
      RedactedWordIsWord(words[|words| - 1]);
      RedactedWordIsHarmless(words[|words| - 1]);
    }
  }

  /** What is shown for these raw words, before it is cut to size. */
  function ShownWords(raw: string): seq<string> {
    Collapsed(Replacements(Words(Visible(BoundedRaw(raw)))))
  }

  lemma ShownWordsAreHarmless(raw: string)
    ensures RedactedText(raw) == Join(ShownWords(raw))
    ensures forall i :: 0 <= i < |ShownWords(raw)| ==> IsWord(ShownWords(raw)[i]) && IsHarmless(ShownWords(raw)[i])
  {
    var words := Words(Visible(BoundedRaw(raw)));
    WordsAreNotEmpty(Visible(BoundedRaw(raw)));
    WordsHaveNoSeparators(Visible(BoundedRaw(raw)));
    forall i | 0 <= i < |words| ensures IsWord(words[i]) {
      assert words[i] in words;
    }
    RedactionIsWordByWord(words);
    RedactionIsHarmless(words);
  }

  /**
   * The detail, word by word: its words are those of the provider's visible text, each replaced by
   * what may be shown of it and runs of redactions reduced, and only the end may be cut off.  So each
   * word is harmless, the last one possibly being the beginning of a harmless word.
   */
  lemma DetailIsHarmless(failed: bool, raw: Option<string>)
    requires FailureDetail(failed, raw).Some?
    ensures var words := Words(FailureDetail(failed, raw).value);
            && words != [] && CutsOff(words, ShownWords(raw.value))
            && (Size(RedactedText(raw.value)) <= 256 ==> words == ShownWords(raw.value))
            && (forall i :: 0 <= i < |words| - 1 ==> IsHarmless(words[i]))
            && IsHarmless(ShownWords(raw.value)[|words| - 1]) && words[|words| - 1] <= ShownWords(raw.value)[|words| - 1]
  {
    var shown := ShownWords(raw.value);
    ShownWordsAreHarmless(raw.value);
    assert Words([]) == [] && Join([]) == [];
    SanitizedWords(shown, MAX_DETAIL_BYTES);
    var detail := FailureDetail(failed, raw).value;
    SanitizedIsBounded(RedactedText(raw.value), MAX_DETAIL_BYTES);
    FlatRejoins(detail);
    assert Words(detail) != [];
  }

  /** A failed server has a detail exactly when its error, cut to size, holds a visible word. */
  lemma DetailIff(failed: bool, raw: Option<string>)
    ensures FailureDetail(failed, raw).Some? <==> failed && raw.Some? && Words(Visible(BoundedRaw(raw.value))) != []
  {
    if raw.Some? {
      var shown := ShownWords(raw.value);
      ShownWordsAreHarmless(raw.value);
      assert Words([]) == [] && Join([]) == [];
      SanitizedSomeIff(RedactedText(raw.value), MAX_DETAIL_BYTES);
      WordsOfJoin(shown);
      if Words(Visible(BoundedRaw(raw.value))) != [] {
        CollapsedEnds(Replacements(Words(Visible(BoundedRaw(raw.value)))));
      }
    }
  }

  /** Raw text beyond 4096 bytes is cut, at its last separator within them, so that no word is cut. */
  lemma LongDetailEndsBetweenWords(raw: string)
    ensures Size(raw) <= 4_096 ==> BoundedRaw(raw) == raw
    ensures Size(raw) > 4_096 ==>
              var cut, within := BoundedRaw(raw), Prefix(raw, 4_096);
              && cut <= within && NoSeparators(within[if |cut| < |within| then |cut| + 1 else |cut|..])
              && (cut == [] || (|cut| < |within| && IsSeparator(within[|cut|])))
  {
    PrefixIsPrefix(raw, MAX_RAW_BYTES);
    LastSeparatorIs(Prefix(raw, MAX_RAW_BYTES));
  }

  lemma {:induction false} LastSeparatorIs(s: string)
    ensures forall i :: LastSeparator(s) < i < |s| ==> !IsSeparator(s[i])
    ensures LastSeparator(s) > 0 ==> LastSeparator(s) < |s| && IsSeparator(s[LastSeparator(s)])
  {
    if s != [] && !IsSeparator(s[|s| - 1]) {
      LastSeparatorIs(s[..|s| - 1]);
    }
  }

  /** What is visible of a text is what is visible of its parts; of one character, itself unless it steers direction. */
  lemma {:induction false} VisibleOfParts(a: string, b: string, c: char)
    ensures Visible(a + b) == Visible(a) + Visible(b)
    ensures Visible([c]) == if IsBidiControl(c) then [] else [c]
  {
    if b == [] {
      assert a + b == a;
    } else {
      assert (a + b)[..|a + b| - 1] == a + b[..|b| - 1];
      VisibleOfParts(a, b[..|b| - 1], c);
    }
    assert [c][..0] == [];
  }

  // ---------------------------------------------------------------- which words are hidden, by their form

  predicate AllWrapping(s: string) { forall i :: 0 <= i < |s| ==> IsWrapping(s[i]) }

  predicate AllDashes(s: string) { forall i :: 0 <= i < |s| ==> s[i] == '-' }

  predicate IsAmount(s: string) { forall i :: 0 <= i < |s| ==> IsDigit(s[i]) || s[i] == '.' }

  /** Dashes and a name, possibly wrapped in punctuation, that are no negative number. */
  predicate HasOptionForm(word: string, p: string, dashes: string, name: string, q: string) {
    && word == p + dashes + name + q && AllWrapping(p) && AllWrapping(q)
    && dashes != [] && AllDashes(dashes)
    && name != [] && IsAlphanumeric(name[0]) && !IsWrapping(name[|name| - 1])
    && !(|dashes| == 1 && IsAmount(name))
  }

  ghost predicate IsOptionLike(word: string) {
    exists p, dashes, name, q :: HasOptionForm(word, p, dashes, name, q)
  }

  lemma {:induction false} TrimEndSplits(s: string) returns (q: string)
    ensures s == TrimWrappingEnd(s) + q && AllWrapping(q)
    ensures TrimWrappingEnd(s) != [] ==> !IsWrapping(TrimWrappingEnd(s)[|TrimWrappingEnd(s)| - 1])
  {
    if s == [] || !IsWrapping(s[|s| - 1]) {
      q := [];
    } else {
      var before := TrimEndSplits(s[..|s| - 1]);
      q := before + [s[|s| - 1]];
    }
  }

  lemma {:induction false} TrimStartSplits(s: string) returns (p: string)
    ensures s == p + TrimWrappingStart(s) && AllWrapping(p)
  {
    if s == [] || !IsWrapping(s[0]) {
      p := [];
    } else {
      var rest := TrimStartSplits(s[1..]);
      p := [s[0]] + rest;
    }
  }

  lemma {:induction false} TrimDashesSplits(s: string) returns (dashes: string)
    ensures s == dashes + TrimDashes(s) && AllDashes(dashes)
    ensures s != [] && s[0] == '-' ==> dashes != []
  {
    if s == [] || s[0] != '-' {
      dashes := [];
    } else {
      var rest := TrimDashesSplits(s[1..]);
      dashes := [s[0]] + rest;
    }
  }

  lemma {:induction false} TrimEndOf(core: string, q: string)
    requires core != [] && !IsWrapping(core[|core| - 1]) && AllWrapping(q)
    ensures TrimWrappingEnd(core + q) == core
  {
    if q == [] {
      assert core + q == core;
    } else {
      assert (core + q)[..|core + q| - 1] == core + q[..|q| - 1];
      TrimEndOf(core, q[..|q| - 1]);
    }
  }

  lemma {:induction false} TrimStartOf(p: string, core: string)
    requires core != [] && !IsWrapping(core[0]) && AllWrapping(p)
    ensures TrimWrappingStart(p + core) == core
  {
    if p == [] {
      assert p + core == core;
    } else {
      assert (p + core)[1..] == p[1..] + core;
      TrimStartOf(p[1..], core);
    }
  }

  lemma {:induction false} TrimDashesOf(dashes: string, name: string)
    requires AllDashes(dashes) && name != [] && name[0] != '-'
    ensures TrimDashes(dashes + name) == name
  {
    if dashes == [] {
      assert dashes + name == name;
    } else {
      assert (dashes + name)[1..] == dashes[1..] + name;
      TrimDashesOf(dashes[1..], name);
    }
  }

  /** A dash followed by an amount is a negative number, and nothing else that begins as an option is. */
  lemma NegativeNumberIff(dashes: string, name: string)
    requires dashes != [] && AllDashes(dashes) && name != [] && IsAlphanumeric(name[0])
    ensures IsNegativeNumber(dashes + name) <==> |dashes| == 1 && IsAmount(name)
  {
    var word := dashes + name;
    assert word[|dashes|] == name[0];
    if |dashes| == 1 {
      assert forall i :: 1 <= i < |word| ==> word[i] == name[i - 1];
      assert forall i :: 0 <= i < |name| ==> name[i] == word[i + 1];
    } else {
      assert word[1] == '-';
    }
  }

  lemma FormIsOption(word: string, p: string, dashes: string, name: string, q: string)
    requires HasOptionForm(word, p, dashes, name, q)
    ensures IsOptionWord(word)
  {
    var core := dashes + name;
    assert word == p + core + q && core[|core| - 1] == name[|name| - 1];
    TrimEndOf(p + core, q);
    TrimStartOf(p, core);
    TrimDashesOf(dashes, name);
    NegativeNumberIff(dashes, name);
  }

  lemma OptionHasForm(word: string)
    requires IsOptionWord(word)
    ensures IsOptionLike(word)
  {
    var q := TrimEndSplits(word);
    var p := TrimStartSplits(TrimWrappingEnd(word));
    var bare := TrimWrappingStart(TrimWrappingEnd(word));
    var dashes := TrimDashesSplits(bare);
    var name := TrimDashes(bare);
    NegativeNumberIff(dashes, name);
    Parts(word, TrimWrappingEnd(word), bare, p, dashes, name, q);
  }

  lemma Parts(word: string, trimmed: string, bare: string, p: string, dashes: string, name: string, q: string)
    requires word == trimmed + q && trimmed == p + bare && bare == dashes + name && name != []
    requires AllWrapping(p) && AllWrapping(q) && dashes != [] && AllDashes(dashes)
    requires IsAlphanumeric(name[0]) && !IsWrapping(trimmed[|trimmed| - 1]) && !(|dashes| == 1 && IsAmount(name))
    ensures IsOptionLike(word)
  {
    assert trimmed[|trimmed| - 1] == bare[|bare| - 1] == name[|name| - 1];
    assert word == p + dashes + name + q;
    assert HasOptionForm(word, p, dashes, name, q);
  }

  /** The test for options finds exactly the words of that form. */
  lemma OptionWordIff(word: string)
    ensures IsOptionWord(word) <==> IsOptionLike(word)
  {
    if IsOptionWord(word) {
      OptionHasForm(word);
    }
    if p, dashes, name, q :| HasOptionForm(word, p, dashes, name, q) {
      FormIsOption(word, p, dashes, name, q);
    }
  }

  /** An option and the word after it, which may be its secret value, are both redacted. */
  lemma OptionsAreHidden(words: seq<string>, i: nat, p: string, dashes: string, name: string, q: string)
    requires i < |words| && HasOptionForm(words[i], p, dashes, name, q)
    ensures Replacements(words)[i] == "[redacted]"
    ensures i + 1 < |words| ==> Replacements(words)[i + 1] == "[redacted]"
  {
    FormIsOption(words[i], p, dashes, name, q);
  }

  /** A stretch of token characters that is long, or half as long with a digit in it. */
  predicate IsTokenRun(w: string, i: nat, j: nat) {
    && i <= j <= |w| && (forall k :: i <= k < j ==> IsTokenChar(w[k]))
    && (j - i >= 32 || (j - i >= 16 && exists k :: i <= k < j && IsDigit(w[k])))
  }

  /** The word holds a path, an assignment, an address or a token run. */
  ghost predicate IsTelling(w: string) {
    || '/' in w || '\\' in w || '=' in w || '@' in w
    || exists i: nat, j: nat :: IsTokenRun(w, i, j)
  }

  lemma TokenRunIff(w: string, i: nat, j: nat)
    ensures IsTokenRun(w, i, j) <==> SensitiveBetween(w, i, j)
  {
    if i <= j <= |w| {
      assert forall k :: i <= k < j ==> w[i..j][k - i] == w[k];
      assert forall k :: 0 <= k < j - i ==> w[i..j][k] == w[i + k];
    }
  }

  lemma TellingIff(w: string)
    ensures IsSensitive(w) <==> IsTelling(w)
  {
    SensitiveRunIff(w);
    if i: nat, j: nat :| SensitiveBetween(w, i, j) {
      TokenRunIff(w, i, j);
    }
    if i: nat, j: nat :| IsTokenRun(w, i, j) {
      TokenRunIff(w, i, j);
    }
  }

  /** The text begins an address at k. */
  predicate SeparatorAt(w: string, k: nat) { k + 3 <= |w| && w[k..k + 3] == "://" }

  lemma {:induction false} SeparatorIsFirst(w: string)
    ensures match SchemeSeparator(w)
            case None => forall k: nat :: !SeparatorAt(w, k)
            case Some(at) => SeparatorAt(w, at) && forall k: nat :: k < at ==> !SeparatorAt(w, k)
  {
    if |w| >= 3 && w[..3] != "://" {
      SeparatorIsFirst(w[1..]);
      forall k: nat | k > 0 ensures SeparatorAt(w, k) <==> SeparatorAt(w[1..], k - 1) {
        if k + 3 <= |w| { assert w[k..k + 3] == w[1..][k - 1..k + 2]; }
      }
      assert w[0..3] == w[..3];
    } else if |w| >= 3 {
      assert w[0..3] == w[..3];
    }
  }

  /**
   * A word without an address is shown as it was sent exactly when it is no option, follows none and
   * is not telling; any other such word is redacted.
   */
  lemma ShownAsSentIff(words: seq<string>, i: nat)
    requires i < |words| && forall k: nat :: !SeparatorAt(words[i], k)
    ensures Replacements(words)[i] ==
            if IsOptionLike(words[i]) || (i > 0 && IsOptionLike(words[i - 1])) || IsTelling(words[i])
            then "[redacted]" else words[i]
  {
    OptionWordIff(words[i]);
    if i > 0 { OptionWordIff(words[i - 1]); }
    SeparatorIsFirst(words[i]);
    TellingIff(words[i]);
  }

  lemma {:induction false} SchemeStartIs(text: string, start: nat)
    requires start <= |text| && (forall k :: start <= k < |text| ==> IsSchemeChar(text[k]))
    requires start > 0 ==> !IsSchemeChar(text[start - 1])
    ensures SchemeStart(text) == start
  {
    if start < |text| {
      SchemeStartIs(text[..|text| - 1], start);
    }
  }

  lemma AddressWord(w: string, start: nat, at: nat)
    requires SeparatorAt(w, at) && forall k: nat :: k < at ==> !SeparatorAt(w, k)
    requires start <= at && (forall k :: start <= k < at ==> IsSchemeChar(w[k]))
    requires start > 0 ==> !IsSchemeChar(w[start - 1])
    ensures var origin := Origin(w[start..]);
            RedactedWord(w) ==
            if IsTelling(w[..start]) then "[redacted]"
            else w[..start] + if origin.Some? then origin.value else "[redacted]"
  {
    FirstSeparatorIs(w, at);
    SchemeStartIs(w[..at], start);
    TellingIff(w[..start]);
    ReducedWord(w, start, at);
  }

  lemma FirstSeparatorIs(w: string, at: nat)
    requires SeparatorAt(w, at) && forall k: nat :: k < at ==> !SeparatorAt(w, k)
    ensures SchemeSeparator(w) == Some(at)
  {
    SeparatorIsFirst(w);
  }

  lemma ReducedWord(w: string, start: nat, at: nat)
    requires SchemeSeparator(w) == Some(at) && SchemeStart(w[..at]) == start <= at
    requires IsSensitive(w[..start]) <==> IsTelling(w[..start])
    ensures var origin := Origin(w[start..]);
            RedactedWord(w) ==
            if IsTelling(w[..start]) then "[redacted]"
            else w[..start] + if origin.Some? then origin.value else "[redacted]"
  {
  }

  /**
   * A word with an address, when no option hides it: what comes before the address is shown unless it is
   * telling, and of the address its origin only.
   */
  lemma AddressIsReducedToOrigin(words: seq<string>, i: nat, start: nat, at: nat)
    requires i < |words| && !IsOptionLike(words[i]) && (i > 0 ==> !IsOptionLike(words[i - 1]))
    requires SeparatorAt(words[i], at) && forall k: nat :: k < at ==> !SeparatorAt(words[i], k)
    requires start <= at && (forall k :: start <= k < at ==> IsSchemeChar(words[i][k]))
    requires start > 0 ==> !IsSchemeChar(words[i][start - 1])
    ensures var w, origin := words[i], Origin(words[i][start..]);
            Replacements(words)[i] ==
            if IsTelling(w[..start]) then "[redacted]"
            else w[..start] + if origin.Some? then origin.value else "[redacted]"
  {
    OptionWordIff(words[i]);
    if i > 0 { OptionWordIff(words[i - 1]); }
    AddressWord(words[i], start, at);
  }

  // ---------------------------------------------------------------- the classes of characters, listed

  /** Punctuation that may wrap a word. */
  lemma WrappingCharacters(c: char)
    ensures IsWrapping(c) <==> c in "\"'`()[]{}<>,;:.!?"
  {
  }

  /** What tokens and schemes are made of besides letters and digits. */
  lemma TokenAndSchemeCharacters(c: char)
    ensures IsTokenChar(c) <==> IsAlphanumeric(c) || c in "_+-"
    ensures IsSchemeChar(c) <==> IsAlphanumeric(c) || c in "+-."
  {
  }

  /** The marks, embeddings, overrides and isolates that change the direction of text. */
  lemma BidiControls(c: char)
    ensures IsBidiControl(c) <==>
            c as int in [0x200E, 0x200F, 0x202A, 0x202B, 0x202C, 0x202D, 0x202E, 0x2066, 0x2067, 0x2068, 0x2069]
  {
  }
}
