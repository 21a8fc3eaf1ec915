/**
 * The pure text handling around the Xapian binding (data/xapian/connect.js):
 * the locale to stemmer-language table, the normalisation of the keyword
 * list that `add` hands to the engine, and the reading of the result string
 * that the engine's query returns.
 */
module XapianText {
  import opened Outcomes
  import opened Text
  import opened JsValues

  // ---------------------------------------------------------------------------
  // Stemmer language

  /** The stemmer language of each listed two-letter code. */
  const StemmerLanguages: map<string, string> := map[
    "ar" := "arabic", "fa" := "arabic", "hy" := "armenian", "eu" := "basque",
    "ca" := "catalan", "da" := "danish", "nl" := "dutch", "en" := "english",
    "fi" := "finnish", "fr" := "french", "de" := "german", "hu" := "hungarian",
    "id" := "indonesian", "ga" := "irish", "it" := "italian", "lt" := "lithuanian",
    "ne" := "nepali", "no" := "norwegian", "nn" := "norwegian", "nb" := "norwegian",
    "pt" := "portuguese", "ro" := "romanian", "ru" := "russian", "es" := "spanish",
    "sv" := "swedish", "ta" := "tamil", "tr" := "turkish"
  ]

  /**
   * `code.split('-')[0]`: the language part of a locale code, that is the
   * code up to (not including) its first `-`, or all of it when it has none.
   */
  function CodePrefix(code: string): (p: string)
    ensures '-' !in p
    ensures StartsWith(code, p)
    ensures |p| < |code| ==> code[|p|] == '-'
  {
    SplitFirstPiece(code, '-');
    Split(code, '-')[0]
  }

  /**
   * The stemmer language of a locale code, looked up among the table's own
   * entries; a code that is not listed gets `english`. The result is always
   * one of the table's languages.
   */
  function Language(code: string): (name: string)
    ensures name in StemmerLanguages.Values
    ensures CodePrefix(code) !in StemmerLanguages ==> name == "english"
  {
    var p := CodePrefix(code);
    assert StemmerLanguages["en"] == "english";
    if p in StemmerLanguages then StemmerLanguages[p] else "english"
  }

  /** Only the part of the code before the first `-` matters. */
  lemma LanguageIgnoresRegion(p: string, region: string)
    requires '-' !in p
    ensures CodePrefix(p) == p && CodePrefix(p + "-" + region) == p
    ensures Language(p + "-" + region) == Language(p)
    ensures Language(p) == if p in StemmerLanguages then StemmerLanguages[p] else "english"
  {
    SplitNoSeparator(p, '-');
    SplitFreePrefix(p, "-" + region, '-');
    assert p + "-" + region == p + ("-" + region);
    assert Split("-" + region, '-')[0] == [] by {
      assert ("-" + region)[1..] == region;
    }
    assert p + [] == p;
  }

  /** Persian shares the Arabic stemmer. */
  lemma PersianIsArabic()
    ensures Language("fa-IR") == "arabic"
  {
    LanguageIgnoresRegion("fa", "IR");
  }

  /** All three Norwegian codes share one stemmer. */
  lemma NorwegianCodes(region: string)
    ensures Language("no-" + region) == "norwegian"
    ensures Language("nn-" + region) == "norwegian"
    ensures Language("nb-" + region) == "norwegian"
  {
    LanguageIgnoresRegion("no", region);
    LanguageIgnoresRegion("nn", region);
    LanguageIgnoresRegion("nb", region);
    assert "no-" + region == "no" + "-" + region;
    assert "nn-" + region == "nn" + "-" + region;
    assert "nb-" + region == "nb" + "-" + region;
  }

  /** The properties every plain JavaScript object inherits from `Object.prototype`. */
  const ObjectPrototypeMembers: set<string> := {
    "constructor", "hasOwnProperty", "isPrototypeOf", "propertyIsEnumerable",
    "toLocaleString", "toString", "valueOf", "__proto__",
    "__defineGetter__", "__defineSetter__", "__lookupGetter__", "__lookupSetter__"
  }

  /** What indexing an object literal yields: one of its own strings, or an inherited member. */
  datatype LookupValue = Name(name: string) | PrototypeMember(member: string)

  /**
   * The lookup as connect.js writes it: `({...})[code] || 'english'` also finds
   * the members every object inherits, and those are truthy, so they are
   * returned instead of falling back to `english`.
   */
  function LanguageAsWritten(code: string): (v: LookupValue)
    ensures v.PrototypeMember? <==> CodePrefix(code) in ObjectPrototypeMembers
    ensures v.Name? ==> v.name in StemmerLanguages.Values
  {
    var p := CodePrefix(code);
    assert StemmerLanguages["en"] == "english";
    if p in StemmerLanguages then Name(StemmerLanguages[p])
    else if p in ObjectPrototypeMembers then PrototypeMember(p)
    else Name("english")
  }

  /** `constructor` is not one of the table's codes, which all have two letters. */
  lemma ConstructorNotACode()
    ensures "constructor" !in StemmerLanguages
  {
  }

  /** A page whose language is `constructor` gets no stemmer name from the lookup as written. */
  lemma PrototypeCodeEscapesTable(region: string)
    ensures LanguageAsWritten("constructor-" + region) == PrototypeMember("constructor")
  {
    var code := "constructor-" + region;
    assert code == "constructor" + "-" + region;
    LanguageIgnoresRegion("constructor", region);
    ConstructorNotACode();
  }

  /** Away from the inherited member names the lookup as written and `Language` agree. */
  lemma LanguageAsWrittenAgrees(code: string)
    requires CodePrefix(code) !in ObjectPrototypeMembers
    ensures LanguageAsWritten(code) == Name(Language(code))
  {
  }

  // ---------------------------------------------------------------------------
  // Keyword normalisation

  /** A keyword field with the whitespace that touches a comma removed. */
  function TrimField(fields: seq<string>, j: int): (r: string)
    requires 0 <= j < |fields|
    ensures ',' !in fields[j] ==> ',' !in r
  {
    var f := if j > 0 then TrimStart(fields[j]) else fields[j];
    assert forall c :: c in f ==> c in fields[j];
    var g := if j < |fields| - 1 then TrimEnd(f) else f;
    assert forall c :: c in g ==> c in f;
    g
  }

  /** No field but the first starts with whitespace and no field but the last ends with it. */
  predicate Tidy(fields: seq<string>)
  {
    forall j :: 0 <= j < |fields| ==>
      && (j > 0 && fields[j] != [] ==> !IsSpace(fields[j][0]))
      && (j < |fields| - 1 && fields[j] != [] ==> !IsSpace(fields[j][|fields[j]| - 1]))
  }

  /** Every field trimmed on its comma sides. */
  function TrimFields(fields: seq<string>): (r: seq<string>)
    ensures |r| == |fields| && Tidy(r)
    ensures forall j :: 0 <= j < |r| && ',' !in fields[j] ==> ',' !in r[j]
  {
    seq(|fields|, j requires 0 <= j < |fields| => TrimField(fields, j))
  }

  /**
   * `keywords.split(/\s*,\s*\/).join(',')`. The regular expression matches a
   * comma together with the whitespace runs on either side of it, so the
   * pieces it splits into are the comma-separated fields, each stripped of
   * the whitespace on its comma sides.
   */
  function NormalizeKeywords(keywords: string): string
  {
    Join(TrimFields(Split(keywords, ',')), ',')
  }

  /** The fields of the normalised list are the trimmed fields of the original. */
  lemma KeywordFields(keywords: string)
    ensures Split(NormalizeKeywords(keywords), ',') == TrimFields(Split(keywords, ','))
    ensures |Split(NormalizeKeywords(keywords), ',')| == |Split(keywords, ',')|
    ensures Count(NormalizeKeywords(keywords), ',') == Count(keywords, ',')
  {
    var fields := TrimFields(Split(keywords, ','));
    SplitJoin(fields, ',');
    SplitCount(keywords, ',');
    SplitCount(NormalizeKeywords(keywords), ',');
  }

  /** No comma of a join of tidy, comma-free fields has whitespace beside it. */
  predicate CommasBare(s: string)
  {
    forall i :: 0 <= i < |s| && s[i] == ',' ==>
      (i > 0 ==> !IsSpace(s[i - 1])) && (i + 1 < |s| ==> !IsSpace(s[i + 1]))
  }

  lemma {:induction false} JoinTidy(fields: seq<string>)
    requires |fields| >= 1 && Tidy(fields)
    requires forall j :: 0 <= j < |fields| ==> ',' !in fields[j]
    ensures CommasBare(Join(fields, ','))
    decreases |fields|
  {
    if |fields| > 1 {
      var head, tail := fields[0], fields[1..];
      var rest := Join(tail, ',');
      var s := Join(fields, ',');
      assert s == head + [','] + rest;
      assert Tidy(tail) by {
        forall j | 0 <= j < |tail| ensures tail[j] == fields[j + 1] { }
      }
      JoinTidy(tail);
      assert rest != [] ==> rest[0] != ',' ==> tail[0] != [] && rest[0] == tail[0][0] by {
        if |tail| > 1 {
          assert rest == tail[0] + [','] + Join(tail[1..], ',');
        }
      }
      forall i | 0 <= i < |s| && s[i] == ','
        ensures i > 0 ==> !IsSpace(s[i - 1])
        ensures i + 1 < |s| ==> !IsSpace(s[i + 1])
      {
        if i == |head| {
          if i > 0 {
            assert s[i - 1] == head[|head| - 1];
          }
          if i + 1 < |s| {
            assert s[i + 1] == rest[0];
          }
        } else if i > |head| {
          var k := i - |head| - 1;
          assert s[i] == rest[k];
          if k > 0 {
            assert s[i - 1] == rest[k - 1];
          }
          if i + 1 < |s| {
            assert s[i + 1] == rest[k + 1];
          }
        }
      }
    }
  }

  /** After normalisation no comma has whitespace directly before or after it. */
  lemma KeywordsCommasBare(keywords: string)
    ensures CommasBare(NormalizeKeywords(keywords))
  {
    JoinTidy(TrimFields(Split(keywords, ',')));
  }

  /** `s` without its whitespace. */
  function NonSpace(s: string): string
    decreases |s|
  {
    if s == [] then [] else (if IsSpace(s[0]) then [] else [s[0]]) + NonSpace(s[1..])
  }

  lemma {:induction false} NonSpaceAppend(a: string, b: string)
    ensures NonSpace(a + b) == NonSpace(a) + NonSpace(b)
    decreases |a|
  {
    if a == [] {
      assert a + b == b;
    } else {
      assert (a + b)[1..] == a[1..] + b;
      NonSpaceAppend(a[1..], b);
    }
  }

  lemma {:induction false} NonSpaceOfSpaces(s: string)
    requires forall i :: 0 <= i < |s| ==> IsSpace(s[i])
    ensures NonSpace(s) == []
    decreases |s|
  {
    if s != [] {
      NonSpaceOfSpaces(s[1..]);
    }
  }

  lemma TrimStartNonSpace(x: string)
    ensures NonSpace(TrimStart(x)) == NonSpace(x)
  {
    var f := TrimStart(x);
    var k := |x| - |f|;
    assert x == x[..k] + f;
    NonSpaceAppend(x[..k], f);
    NonSpaceOfSpaces(x[..k]);
  }

  lemma TrimEndNonSpace(x: string)
    ensures NonSpace(TrimEnd(x)) == NonSpace(x)
  {
    var g := TrimEnd(x);
    assert x == g + x[|g|..];
    NonSpaceAppend(g, x[|g|..]);
    NonSpaceOfSpaces(x[|g|..]);
  }

  /** Trimming a field removes whitespace only. */
  lemma TrimFieldNonSpace(fields: seq<string>, j: int)
    requires 0 <= j < |fields|
    ensures NonSpace(TrimField(fields, j)) == NonSpace(fields[j])
  {
    var x := fields[j];
    var f := if j > 0 then TrimStart(x) else x;
    if j > 0 {
      TrimStartNonSpace(x);
    }
    if j < |fields| - 1 {
      TrimEndNonSpace(f);
    }
  }

  /** Joins of field lists that agree on their non-whitespace text agree on it too. */
  lemma {:induction false} JoinNonSpace(a: seq<string>, b: seq<string>)
    requires |a| == |b|
    requires forall j :: 0 <= j < |a| ==> NonSpace(a[j]) == NonSpace(b[j])
    ensures NonSpace(Join(a, ',')) == NonSpace(Join(b, ','))
    decreases |a|
  {
    if |a| > 1 {
      JoinNonSpace(a[1..], b[1..]);
      NonSpaceAppend(a[0] + [','], Join(a[1..], ','));
      NonSpaceAppend(b[0] + [','], Join(b[1..], ','));
      NonSpaceAppend(a[0], [',']);
      NonSpaceAppend(b[0], [',']);
    }
  }

  /** Normalisation removes whitespace and nothing else. */
  lemma KeywordsKeepText(keywords: string)
    ensures NonSpace(NormalizeKeywords(keywords)) == NonSpace(keywords)
  {
    var fields := Split(keywords, ',');
    forall j | 0 <= j < |fields|
      ensures NonSpace(TrimFields(fields)[j]) == NonSpace(fields[j])
    {
      TrimFieldNonSpace(fields, j);
    }
    JoinNonSpace(TrimFields(fields), fields);
    JoinSplit(keywords, ',');
  }

  /** A list without commas is one field and is left as it is, whitespace included. */
  lemma KeywordsWithoutComma(keywords: string)
    requires ',' !in keywords
    ensures NormalizeKeywords(keywords) == keywords
  {
    SplitNoSeparator(keywords, ',');
  }

  /** Trimming tidy fields changes nothing. */
  lemma TrimTidy(fields: seq<string>)
    requires Tidy(fields)
    ensures TrimFields(fields) == fields
  {
    forall j | 0 <= j < |fields|
      ensures TrimField(fields, j) == fields[j]
    {
    }
  }

  /** Normalising twice is normalising once. */
  lemma KeywordsIdempotent(keywords: string)
    ensures NormalizeKeywords(NormalizeKeywords(keywords)) == NormalizeKeywords(keywords)
  {
    KeywordFields(keywords);
    TrimTidy(TrimFields(Split(keywords, ',')));
  }

  // ---------------------------------------------------------------------------
  // Search result

  /** The two counts `search` reports: `Number(size)` and `Number(estimated)`. */
  datatype SearchCounts = SearchCounts(size: Number, estimated: Number)

  /** The tag the engine puts in front of an error message. */
  const ErrorTag: string := "Error: "

  /**
   * The engine's query result: `Error: <message>` raises an error carrying the
   * message; otherwise the text is `size/estimated`, read as two numbers (a
   * text without `/` leaves `estimated` undefined, which is NaN).
   */
  function ParseSearchResult(rst: string): (r: Result<SearchCounts, string>)
    ensures r.Err? <==> StartsWith(rst, ErrorTag)
    ensures r.Err? ==> rst == ErrorTag + r.error
    ensures r.Ok? && '/' !in rst ==> r.value == SearchCounts(ToNumber(rst), NaN)
  {
    if StartsWith(rst, ErrorTag) then
      assert rst == rst[..|ErrorTag|] + rst[|ErrorTag|..];
      Err(rst[|ErrorTag|..])
    else
      var pieces := Split(rst, '/');
      SplitCount(rst, '/');
      JoinSplit(rst, '/');
      Ok(SearchCounts(ToNumber(pieces[0]), if |pieces| > 1 then ToNumber(pieces[1]) else NaN))
  }

  /** An integer's text contains no `/`. */
  lemma IntStringHasNoSlash(n: int)
    ensures '/' !in IntString(n)
    ensures IntString(n)[0] != ErrorTag[0]
  {
    var s := IntString(n);
    forall i | 0 <= i < |s|
      ensures s[i] != '/' && s[i] != 'E'
    {
      if !IsDigits(s) && i > 0 {
        assert s[i] == s[1..][i - 1];
      }
    }
  }

  /** The counts the engine writes as `size/estimated` are read back exactly. */
  lemma SearchResultRoundTrip(size: int, estimated: int)
    ensures ParseSearchResult(IntString(size) + "/" + IntString(estimated))
            == Ok(SearchCounts(Finite(size), Finite(estimated)))
  {
    var a, b := IntString(size), IntString(estimated);
    IntStringHasNoSlash(size);
    IntStringHasNoSlash(estimated);
    var rst := a + "/" + b;
    assert rst[0] == a[0];
    assert !StartsWith(rst, ErrorTag) by {
      assert rst[0] != ErrorTag[0];
    }
    SplitPair(a, b, '/');
    NumberOfIntString(size);
    NumberOfIntString(estimated);
  }

  /** An error text yields exactly the message after the tag. */
  lemma SearchErrorMessage(message: string)
    ensures ParseSearchResult(ErrorTag + message) == Err(message)
  {
    assert (ErrorTag + message)[..|ErrorTag|] == ErrorTag;
    assert (ErrorTag + message)[|ErrorTag|..] == message;
  }
}
