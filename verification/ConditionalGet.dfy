/** The conditional GET: `noneMatch` by splitting on commas, against section 13.1.2 of RFC 9110. */
module ConditionalGet {
  import opened Options

  // ---------- the code ----------

  /** What `trim` strips, of the characters a header value may hold. */
  predicate IsSpace(c: char) {
    c == ' ' || c == '\t' || c == '\n' || c == '\r' || c as int == 0x0B || c as int == 0x0C || c as int == 0xA0
  }

  function TrimStart(s: string): string { if s != [] && IsSpace(s[0]) then TrimStart(s[1..]) else s }

  function TrimEnd(s: string): string { if s != [] && IsSpace(s[|s| - 1]) then TrimEnd(s[..|s| - 1]) else s }

  function Trim(s: string): string { TrimEnd(TrimStart(s)) }

  function StripWeak(s: string): string { if |s| >= 2 && s[0] == 'W' && s[1] == '/' then s[2..] else s }

  function Stripped(tag: string): string { StripWeak(Trim(tag)) }

  /** `split(',')`. */
  function Split(s: string): (pieces: seq<string>)
    ensures pieces != []
  {
    if s == [] then [""]
    else
      var others := Split(s[1..]);
      if s[0] == ',' then [""] + others
      else Prepended(s[0], others)
  }

  /** One more character at the head of the first piece. */
  function Prepended(c: char, pieces: seq<string>): (longer: seq<string>)
    requires pieces != []
    ensures longer != []
  {
    [[c] + pieces[0]] + pieces[1..]
  }

  predicate SomeMatches(pieces: seq<string>, core: string) {
    exists i :: 0 <= i < |pieces| && Stripped(pieces[i]) == core
  }

  function NoneMatch(ifNoneMatch: Option<string>, entityTag: string): bool {
    match ifNoneMatch
    case None => true
    case Some(value) => Trim(value) != "*" && !SomeMatches(Split(value), Stripped(entityTag))
  }

  // ---------- the grammar ----------

  /** `etagc`: any visible character but the quote, commas included. */
  predicate Etagc(c: char) { c != '"' && 0x21 <= c as int && c as int != 0x7F }

  datatype Tag = Tag(weak: bool, core: string)

  predicate IsTag(t: Tag) { forall i :: 0 <= i < |t.core| ==> Etagc(t.core[i]) }

  function Prefix(weak: bool): string { if weak then "W/" else "" }

  function Quoted(core: string): string { "\"" + core + "\"" }

  function Written(t: Tag): string { Prefix(t.weak) + Quoted(t.core) }

  /** Optional white space: spaces and tabs. */
  predicate IsOws(s: string) { forall i :: 0 <= i < |s| ==> s[i] == ' ' || s[i] == '\t' }

  /** One element of the list: a tag in its white space, or the empty element a recipient tolerates. */
  datatype Element = Blank(ows: string) | Listed(before: string, tag: Tag, after: string)

  predicate IsElement(e: Element) {
    match e
    case Blank(ows) => IsOws(ows)
    case Listed(before, tag, after) => IsOws(before) && IsTag(tag) && IsOws(after)
  }

  function WrittenElement(e: Element): string {
    match e
    case Blank(ows) => ows
    case Listed(before, tag, after) => before + Written(tag) + after
  }

  function WrittenList(elements: seq<Element>): string
    requires elements != []
  {
    if |elements| == 1 then WrittenElement(elements[0])
    else WrittenElement(elements[0]) + "," + WrittenList(elements[1..])
  }

  /** A well-formed field value: `*`, or a list of tags. */
  datatype FieldValue = Any(before: string, after: string) | Tags(elements: seq<Element>)

  predicate IsFieldValue(f: FieldValue) {
    match f
    case Any(before, after) => IsOws(before) && IsOws(after)
    case Tags(elements) => elements != [] && forall i :: 0 <= i < |elements| ==> IsElement(elements[i])
  }

  function WrittenField(f: FieldValue): string
    requires IsFieldValue(f)
  {
    match f
    case Any(before, after) => before + "*" + after
    case Tags(elements) => WrittenList(elements)
  }

  /** Section 13.1.2, with the weak comparison of section 8.8.3.2: the quoted tags are the same characters. */
  predicate ConditionHolds(f: FieldValue, tag: Tag) {
    match f
    case Any(_, _) => false
    case Tags(elements) => forall i :: 0 <= i < |elements| && elements[i].Listed? ==> elements[i].tag.core != tag.core
  }

  predicate HasComma(s: string) { exists i :: 0 <= i < |s| && s[i] == ',' }

  // ---------- splitting ----------

  lemma {:induction false} SplitWithoutComma(s: string)
    requires !HasComma(s)
    ensures Split(s) == [s]
  {
    if s != [] {
      assert forall i :: 0 <= i < |s[1..]| ==> s[1..][i] == s[i + 1];
      SplitWithoutComma(s[1..]);
      assert [s[0]] + s[1..] == s;
    }
  }

  /** A comma ends a piece: the two sides split on their own. */
  lemma {:induction false} SplitAtComma(a: string, b: string)
    ensures Split(a + "," + b) == Split(a) + Split(b)
  {
    var s := a + "," + b;
    if a == [] {
      assert s[1..] == b && s[0] == ',';
    } else {
      assert s[1..] == a[1..] + "," + b && s[0] == a[0];
      SplitAtComma(a[1..], b);
      PrependedToTheFirst(a[0], Split(a[1..]), Split(b));
    }
  }

  lemma PrependedToTheFirst(c: char, first: seq<string>, second: seq<string>)
    requires first != []
    ensures Prepended(c, first + second) == Prepended(c, first) + second
    ensures [""] + (first + second) == ([""] + first) + second
  {
    assert (first + second)[1..] == first[1..] + second;
  }

  lemma SomeMatchesSplits(first: seq<string>, second: seq<string>, core: string)
    ensures SomeMatches(first + second, core) <==> SomeMatches(first, core) || SomeMatches(second, core)
  {
    var all := first + second;
    if SomeMatches(first, core) {
      var i :| 0 <= i < |first| && Stripped(first[i]) == core;
      assert all[i] == first[i];
    }
    if SomeMatches(second, core) {
      var i :| 0 <= i < |second| && Stripped(second[i]) == core;
      assert all[|first| + i] == second[i];
    }
  }

  // ---------- counting quotes ----------

  function Quotes(s: string): nat {
    if s == [] then 0 else (if s[0] == '"' then 1 else 0) + Quotes(s[1..])
  }

  lemma {:induction false} QuotesAdd(a: string, b: string)
    ensures Quotes(a + b) == Quotes(a) + Quotes(b)
  {
    if a == [] {
      assert a + b == b;
    } else {
      QuotesAdd(a[1..], b);
      assert (a + b)[1..] == a[1..] + b;
    }
  }

  lemma {:induction false} NoQuotes(s: string)
    requires forall i :: 0 <= i < |s| ==> s[i] != '"'
    ensures Quotes(s) == 0
  {
    if s != [] {
      NoQuotes(s[1..]);
    }
  }

  lemma {:induction false} TrimStartKeepsQuotes(s: string)
    ensures Quotes(TrimStart(s)) <= Quotes(s)
  {
    if s != [] {
      TrimStartKeepsQuotes(s[1..]);
    }
  }

  lemma {:induction false} TrimEndKeepsQuotes(s: string)
    ensures Quotes(TrimEnd(s)) <= Quotes(s)
  {
    if s != [] {
      TrimEndKeepsQuotes(s[..|s| - 1]);
      QuotesAdd(s[..|s| - 1], [s[|s| - 1]]);
      assert s[..|s| - 1] + [s[|s| - 1]] == s;
    }
  }

  lemma StrippingKeepsQuotes(s: string)
    ensures Quotes(Stripped(s)) <= Quotes(s)
  {
    TrimStartKeepsQuotes(s);
    TrimEndKeepsQuotes(TrimStart(s));
    var t := Trim(s);
    if |t| >= 2 {
      QuotesAdd(t[..2], t[2..]);
      assert t[..2] + t[2..] == t;
    }
  }

  /** A piece has no more quotes than the whole. */
  lemma {:induction false} PiecesKeepQuotes(s: string, i: nat)
    requires i < |Split(s)|
    ensures Quotes(Split(s)[i]) <= Quotes(s)
  {
    if s != [] {
      var others := Split(s[1..]);
      if s[0] == ',' {
        if i > 0 {
          PiecesKeepQuotes(s[1..], i - 1);
        }
      } else if i == 0 {
        PiecesKeepQuotes(s[1..], 0);
        QuotesAdd([s[0]], others[0]);
        assert [s[0]][1..] == [];
        assert Quotes([s[0]]) == if s[0] == '"' then 1 else 0;
      } else {
        PiecesKeepQuotes(s[1..], i);
      }
    }
  }

  /** Fewer than two quotes cannot make a quoted tag. */
  lemma PiecesWithOneQuoteNeverMatch(s: string, core: string)
    requires Quotes(s) <= 1
    ensures !SomeMatches(Split(s), Quoted(core))
  {
    forall i | 0 <= i < |Split(s)| ensures Stripped(Split(s)[i]) != Quoted(core) {
      PiecesKeepQuotes(s, i);
      StrippingKeepsQuotes(Split(s)[i]);
      QuotedHasTwoQuotes(core);
    }
  }

  lemma QuotedHasTwoQuotes(core: string)
    ensures Quotes(Quoted(core)) >= 2
  {
    QuotesAdd("\"" + core, "\"");
    QuotesAdd("\"", core);
    assert Quotes("\"") == 1 + Quotes("\""[1..]);
  }

  // ---------- one element ----------

  lemma {:induction false} TrimStartOf(ows: string, s: string)
    requires IsOws(ows) && s != [] && !IsSpace(s[0])
    ensures TrimStart(ows + s) == s
  {
    if ows == [] {
      assert ows + s == s;
    } else {
      TrimStartOf(ows[1..], s);
      assert (ows + s)[1..] == ows[1..] + s;
    }
  }

  lemma {:induction false} TrimEndOf(s: string, ows: string)
    requires IsOws(ows) && s != [] && !IsSpace(s[|s| - 1])
    ensures TrimEnd(s + ows) == s
  {
    if ows == [] {
      assert s + ows == s;
    } else {
      var n := |ows| - 1;
      TrimEndOf(s, ows[..n]);
      assert (s + ows)[..|s + ows| - 1] == s + ows[..n];
    }
  }

  lemma StrippedOfListed(before: string, tag: Tag, after: string)
    requires IsOws(before) && IsOws(after)
    ensures Stripped(before + Written(tag) + after) == Quoted(tag.core)
  {
    var w := Written(tag);
    assert before + w + after == before + (w + after);
    TrimStartOf(before, w + after);
    TrimEndOf(w, after);
    if tag.weak {
      assert w[2..] == Quoted(tag.core);
    } else {
      assert w == Quoted(tag.core);
    }
  }

  lemma QuotedIsInjective(a: string, b: string)
    requires Quoted(a) == Quoted(b)
    ensures a == b
  {
    assert Quoted(a)[1..|Quoted(a)| - 1] == a && Quoted(b)[1..|Quoted(b)| - 1] == b;
  }

  lemma {:induction false} TrimOfOws(ows: string)
    requires IsOws(ows)
    ensures TrimStart(ows) == []
  {
    if ows != [] {
      TrimOfOws(ows[1..]);
    }
  }

  lemma WrittenAroundComma(e: Element, k: nat)
    requires e.Listed? && k < |e.tag.core| && e.tag.core[k] == ','
    ensures WrittenElement(e) ==
      (e.before + Prefix(e.tag.weak) + "\"" + e.tag.core[..k]) + "," + (e.tag.core[k + 1..] + "\"" + e.after)
  {
    var t := e.tag.core;
    assert t == t[..k] + "," + t[k + 1..];
  }

  /** A tag with a comma in it is cut into pieces of one quote each. */
  lemma CommaTagsNeverMatch(e: Element, core: string)
    requires IsElement(e) && e.Listed? && HasComma(e.tag.core)
    ensures !SomeMatches(Split(WrittenElement(e)), Quoted(core))
  {
    var t := e.tag.core;
    var k :| 0 <= k < |t| && t[k] == ',';
    var head, tail := e.before + Prefix(e.tag.weak) + "\"" + t[..k], t[k + 1..] + "\"" + e.after;
    WrittenAroundComma(e, k);
    SplitAtComma(head, tail);
    SomeMatchesSplits(Split(head), Split(tail), Quoted(core));
    OneQuoteBefore(e.before, e.tag.weak, t[..k]);
    OneQuoteAfter(t[k + 1..], e.after);
    PiecesWithOneQuoteNeverMatch(head, core);
    PiecesWithOneQuoteNeverMatch(tail, core);
  }

  lemma OneQuoteBefore(before: string, weak: bool, part: string)
    requires IsOws(before) && forall i :: 0 <= i < |part| ==> part[i] != '"'
    ensures Quotes(before + Prefix(weak) + "\"" + part) <= 1
  {
    QuotesAdd(before + Prefix(weak) + "\"", part);
    QuotesAdd(before + Prefix(weak), "\"");
    NoQuotes(before + Prefix(weak));
    NoQuotes(part);
    assert Quotes("\"") == 1 + Quotes("\""[1..]);
  }

  lemma OneQuoteAfter(part: string, after: string)
    requires IsOws(after) && forall i :: 0 <= i < |part| ==> part[i] != '"'
    ensures Quotes(part + "\"" + after) <= 1
  {
    QuotesAdd(part + "\"", after);
    QuotesAdd(part, "\"");
    NoQuotes(part);
    NoQuotes(after);
    assert Quotes("\"") == 1 + Quotes("\""[1..]);
  }

  lemma BlanksNeverMatch(ows: string, core: string)
    requires IsOws(ows)
    ensures !SomeMatches(Split(ows), Quoted(core))
  {
    NoQuotes(ows);
    PiecesWithOneQuoteNeverMatch(ows, core);
  }

  /** Splitting one element finds the tag exactly when it is that tag, for a tag without a comma. */
  lemma ElementMatches(e: Element, core: string)
    requires IsElement(e) && !HasComma(core)
    ensures SomeMatches(Split(WrittenElement(e)), Quoted(core)) <==> e.Listed? && e.tag.core == core
  {
    if e.Blank? {
      BlanksNeverMatch(e.ows, core);
    } else if HasComma(e.tag.core) {
      CommaTagsNeverMatch(e, core);
    } else {
      var w := WrittenElement(e);
      NoCommaWritten(e);
      SplitWithoutComma(w);
      StrippedOfListed(e.before, e.tag, e.after);
      assert Split(w)[0] == w;
      if Quoted(e.tag.core) == Quoted(core) {
        QuotedIsInjective(e.tag.core, core);
      }
    }
  }

  lemma NoCommaWritten(e: Element)
    requires IsElement(e) && e.Listed? && !HasComma(e.tag.core)
    ensures !HasComma(WrittenElement(e))
  {
    var w, start := WrittenElement(e), |e.before| + |Prefix(e.tag.weak)| + 1;
    forall i | 0 <= i < |w| ensures w[i] != ',' {
      if start <= i < start + |e.tag.core| {
        assert w[i] == e.tag.core[i - start];
      }
    }
  }

  // ---------- the list ----------

  lemma {:induction false} ListMatches(elements: seq<Element>, core: string)
    requires elements != [] && !HasComma(core) && forall i :: 0 <= i < |elements| ==> IsElement(elements[i])
    ensures SomeMatches(Split(WrittenList(elements)), Quoted(core)) <==>
      exists i :: 0 <= i < |elements| && elements[i].Listed? && elements[i].tag.core == core
  {
    ElementMatches(elements[0], core);
    if |elements| > 1 {
      var others := elements[1..];
      ListMatches(others, core);
      SplitAtComma(WrittenElement(elements[0]), WrittenList(others));
      SomeMatchesSplits(Split(WrittenElement(elements[0])), Split(WrittenList(others)), Quoted(core));
      if exists i :: 0 <= i < |elements| && elements[i].Listed? && elements[i].tag.core == core {
        var i :| 0 <= i < |elements| && elements[i].Listed? && elements[i].tag.core == core;
        if i > 0 {
          assert others[i - 1] == elements[i];
        }
      }
      if exists i :: 0 <= i < |others| && others[i].Listed? && others[i].tag.core == core {
        var i :| 0 <= i < |others| && others[i].Listed? && others[i].tag.core == core;
        assert elements[i + 1] == others[i];
      }
    }
  }

  // ---------- the wildcard ----------

  lemma {:induction false} TrimStartKeeps(s: string, c: char)
    requires !IsSpace(c)
    ensures c in TrimStart(s) <==> c in s
  {
    if s != [] && IsSpace(s[0]) {
      TrimStartKeeps(s[1..], c);
      assert s == [s[0]] + s[1..];
    }
  }

  lemma {:induction false} TrimEndKeeps(s: string, c: char)
    requires !IsSpace(c)
    ensures c in TrimEnd(s) <==> c in s
  {
    if s != [] && IsSpace(s[|s| - 1]) {
      TrimEndKeeps(s[..|s| - 1], c);
      assert s == s[..|s| - 1] + [s[|s| - 1]];
    }
  }

  lemma TrimKeeps(s: string, c: char)
    requires !IsSpace(c)
    ensures c in Trim(s) <==> c in s
  {
    TrimStartKeeps(s, c);
    TrimEndKeeps(TrimStart(s), c);
  }

  /** A star in a written list is inside a tag, so inside quotes. */
  lemma {:induction false} StarsAreQuoted(elements: seq<Element>)
    requires elements != [] && forall i :: 0 <= i < |elements| ==> IsElement(elements[i])
    ensures '*' in WrittenList(elements) ==> '"' in WrittenList(elements)
  {
    var first := WrittenElement(elements[0]);
    if elements[0].Listed? {
      assert first[|elements[0].before| + |Prefix(elements[0].tag.weak)|] == '"';
      assert '"' in first;
    }
    if |elements| > 1 {
      StarsAreQuoted(elements[1..]);
    }
  }

  lemma AListIsNeverTheWildcard(elements: seq<Element>)
    requires elements != [] && forall i :: 0 <= i < |elements| ==> IsElement(elements[i])
    ensures Trim(WrittenList(elements)) != "*"
  {
    var w, star := WrittenList(elements), "*";
    TrimKeeps(w, '*');
    TrimKeeps(w, '"');
    StarsAreQuoted(elements);
    assert star[0] == '*' && '"' !in star;
  }

  // ---------- the statements ----------

  lemma StrippedOfTag(tag: Tag)
    ensures Stripped(Written(tag)) == Quoted(tag.core)
  {
    assert [] + Written(tag) + [] == Written(tag);
    StrippedOfListed([], tag, []);
  }

  /** The header as the request carries it, or no header. */
  function HeaderOf(f: Option<FieldValue>): Option<string>
    requires f.Some? ==> IsFieldValue(f.value)
  {
    match f
    case None => None
    case Some(value) => Some(WrittenField(value))
  }

  ghost predicate WellFormed(f: Option<FieldValue>) { f.Some? ==> IsFieldValue(f.value) }

  /** A request without the header is answered in full; one with it, as the condition says. */
  predicate AnsweredInFull(f: Option<FieldValue>, tag: Tag) { f.None? || ConditionHolds(f.value, tag) }

  lemma SplittingDecidesTheField(f: FieldValue, tag: Tag)
    requires IsFieldValue(f) && !HasComma(tag.core)
    ensures NoneMatch(Some(WrittenField(f)), Written(tag)) == ConditionHolds(f, tag)
  {
    StrippedOfTag(tag);
    match f
    case Any(before, after) =>
      assert before + "*" + after == before + ("*" + after);
      TrimStartOf(before, "*" + after);
      TrimEndOf("*", after);
    case Tags(elements) =>
      ListMatches(elements, tag.core);
      AListIsNeverTheWildcard(elements);
  }

  /** For every well-formed header, or none, the split gives the verdict of the standard, for a tag without a comma. */
  lemma SplittingDecidesTheCondition(f: Option<FieldValue>, tag: Tag)
    requires WellFormed(f) && !HasComma(tag.core)
    ensures NoneMatch(HeaderOf(f), Written(tag)) == AnsweredInFull(f, tag)
  {
    if f.Some? {
      SplittingDecidesTheField(f.value, tag);
    }
  }

  /** The condition is exact: a tag with a comma is not even matched by itself. */
  lemma SplittingDecidesExactlyWithoutACommaInTheTag(tag: Tag)
    requires IsTag(tag)
    ensures !HasComma(tag.core) <==>
      forall f: Option<FieldValue> :: WellFormed(f) ==> NoneMatch(HeaderOf(f), Written(tag)) == AnsweredInFull(f, tag)
  {
    if HasComma(tag.core) {
      var e := Listed("", tag, "");
      var f := Tags([e]);
      StrippedOfTag(tag);
      CommaTagsNeverMatch(e, tag.core);
      AListIsNeverTheWildcard([e]);
      assert IsElement(e) && WrittenField(f) == WrittenElement(e);
      assert f.elements[0].Listed? && !ConditionHolds(f, tag);
      assert WellFormed(Some(f)) && !AnsweredInFull(Some(f), tag);
    } else {
      forall f: Option<FieldValue> | WellFormed(f) ensures NoneMatch(HeaderOf(f), Written(tag)) == AnsweredInFull(f, tag) {
        SplittingDecidesTheCondition(f, tag);
      }
    }
  }

  /** The base64url alphabet the server's digests are written in. */
  predicate Base64Url(c: char) {
    'a' <= c <= 'z' || 'A' <= c <= 'Z' || '0' <= c <= '9' || c == '-' || c == '_'
  }

  /** `entityTagOf` of a digest: its first twenty-seven characters, weak. */
  function EntityTagOf(digest: string): Tag
    requires |digest| >= 27
  {
    Tag(true, digest[..27])
  }

  /** So the verdict is right for every tag this server produces, whatever other tags the client lists. */
  lemma ServerTagsAreDecided(f: Option<FieldValue>, digest: string)
    requires WellFormed(f) && |digest| >= 27 && forall i :: 0 <= i < |digest| ==> Base64Url(digest[i])
    ensures IsTag(EntityTagOf(digest)) && EntityTagOf(digest).weak
    ensures NoneMatch(HeaderOf(f), Written(EntityTagOf(digest))) == AnsweredInFull(f, EntityTagOf(digest))
  {
    SplittingDecidesTheCondition(f, EntityTagOf(digest));
  }
}
