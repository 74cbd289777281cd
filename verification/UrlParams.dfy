/** Setting one parameter of a URL's query string. */
module UrlParams {

  datatype Position = Npos | At(index: nat)

  predicate Occurs(s: string, pattern: string, i: nat) {
    i + |pattern| <= |s| && s[i..i + |pattern|] == pattern
  }

  /** std::string::find: the first occurrence at or after `from`. */
  function Find(s: string, pattern: string, from: nat): (pos: Position)
    requires from <= |s|
    ensures pos.At? ==> from <= pos.index && Occurs(s, pattern, pos.index)
    ensures pos.At? ==> forall j | from <= j < pos.index :: !Occurs(s, pattern, j)
    ensures pos.Npos? ==> forall j | from <= j :: !Occurs(s, pattern, j)
    decreases |s| - from
  {
    if Occurs(s, pattern, from) then At(from)
    else if from == |s| then Npos
    else Find(s, pattern, from + 1)
  }

  function Query(param: string): string { param + "=" }

  /** Where the value that starts at pos ends. */
  function ValueEnd(url: string, pos: nat): (end: nat)
    requires pos <= |url|
    ensures pos <= end <= |url|
  {
    var e := Find(url, "&", pos);
    if e.Npos? then |url| else e.index
  }

  /** What goes before an appended parameter. */
  function Separator(url: string): string {
    if Find(url, "?", 0).Npos? then "?" else "&"
  }

  /** The URL afterwards: the first match's value exchanged, or the parameter appended. */
  function Replaced(url: string, param: string, value: string): string {
    var p := Find(url, Query(param), 0);
    if p.Npos? then
      url + Separator(url) + Query(param) + value
    else
      var pos := p.index + |Query(param)|;
      url[..pos] + value + url[ValueEnd(url, pos)..]
  }

  method ReplaceUrlParamValue(url: string, param: string, newValue: string) returns (url': string)
    ensures url' == Replaced(url, param, newValue)
  {
    url' := url;
    var query := param;
    query := query + "=";
    var pos := Find(url', query, 0);
    if pos == Npos {
      if Find(url', "?", 0) == Npos {
        url' := url' + "?";
        url' := url' + query;
        url' := url' + newValue;
      } else {
        url' := url' + "&";
        url' := url' + query;
        url' := url' + newValue;
      }
    } else {
      var start := pos.index + |query|;
      var end := Find(url', "&", start);
      var endp := if end == Npos then |url'| else end.index;
      url' := url'[..start] + newValue + url'[endp..];
    }
  }

  // ---- reading a parameter back ----

  /** The text from the first match's value to the next '&'. */
  function ValueOf(url: string, param: string): (value: string)
    requires Find(url, Query(param), 0).At?
  {
    var pos := Find(url, Query(param), 0).index + |Query(param)|;
    url[pos..ValueEnd(url, pos)]
  }

  /** The query occurs at the end of the text and nowhere before. */
  ghost predicate EndsFirst(text: string, query: string) {
    && |query| <= |text| && Occurs(text, query, |text| - |query|)
    && forall j | 0 <= j < |text| - |query| :: !Occurs(text, query, j)
  }

  predicate Separated(after: string) { after == "" || after[0] == '&' }

  /** url is `before`, through the '=' of the first match, then the value, then `after`. */
  ghost predicate Parts(url: string, param: string, before: string, value: string, after: string) {
    EndsFirst(before, Query(param)) && url == before + value + after && '&' !in value && Separated(after)
  }

  lemma FindIs(s: string, pattern: string, from: nat, i: nat)
    requires from <= i && i <= |s| && Occurs(s, pattern, i) && forall j | from <= j < i :: !Occurs(s, pattern, j)
    ensures Find(s, pattern, from) == At(i)
  {
  }

  lemma OccursInPrefix(s: string, t: string, pattern: string, j: nat)
    requires j + |pattern| <= |s|
    ensures Occurs(s + t, pattern, j) <==> Occurs(s, pattern, j)
  {
    assert (s + t)[j..j + |pattern|] == s[j..j + |pattern|];
  }

  /** The first match of a text that has one does not move when what follows it changes. */
  lemma FirstMatchStays(before: string, rest: string, query: string)
    requires EndsFirst(before, query)
    ensures Find(before + rest, query, 0) == At(|before| - |query|)
  {
    forall j | 0 <= j <= |before| - |query| ensures Occurs(before + rest, query, j) <==> Occurs(before, query, j) {
      OccursInPrefix(before, rest, query, j);
    }
    FindIs(before + rest, query, 0, |before| - |query|);
  }

  lemma ValueEnds(before: string, value: string, after: string)
    requires '&' !in value && Separated(after)
    ensures ValueEnd(before + value + after, |before|) == |before| + |value|
  {
    var url, n := before + value + after, |before| + |value|;
    forall j | |before| <= j < n ensures !Occurs(url, "&", j) {
      assert url[j] == value[j - |before|];
      assert url[j..j + 1] == [url[j]];
    }
    if after != "" {
      assert url[n..n + 1] == "&";
      FindIs(url, "&", |before|, n);
    } else {
      assert forall j | n <= j :: !Occurs(url, "&", j);
    }
  }

  /** Given the parts of a URL, replacing exchanges the value and nothing else, and reading yields
      the value. */
  lemma PartsReplaced(url: string, param: string, before: string, value: string, after: string, v: string)
    requires Parts(url, param, before, value, after)
    ensures Find(url, Query(param), 0) == At(|before| - |Query(param)|)
    ensures ValueOf(url, param) == value
    ensures Replaced(url, param, v) == before + v + after
  {
    var query := Query(param);
    assert before + value + after == before + (value + after);
    FirstMatchStays(before, value + after, query);
    ValueEnds(before, value, after);
    assert url[..|before|] == before && url[|before| + |value|..] == after;
    assert url[|before|..|before| + |value|] == value;
  }

  lemma ValueStops(url: string, pos: nat)
    requires pos <= |url|
    ensures '&' !in url[pos..ValueEnd(url, pos)]
    ensures ValueEnd(url, pos) < |url| ==> url[ValueEnd(url, pos)] == '&'
  {
    var end := ValueEnd(url, pos);
    forall k | pos <= k < end ensures url[k] != '&' {
      assert !Occurs(url, "&", k);
      assert url[k..k + 1] == [url[k]];
    }
    if end < |url| {
      assert url[end..end + 1] == "&";
    }
  }

  lemma NoneBefore(url: string, query: string, n: nat)
    requires |query| <= n <= |url| && Occurs(url, query, n - |query|)
    requires forall j | 0 <= j < n - |query| :: !Occurs(url, query, j)
    ensures EndsFirst(url[..n], query)
  {
    assert url == url[..n] + url[n..];
    forall j | 0 <= j <= n - |query| ensures Occurs(url[..n], query, j) <==> Occurs(url, query, j) {
      OccursInPrefix(url[..n], url[n..], query, j);
    }
  }

  lemma Thirds(url: string, i: nat, j: nat)
    requires i <= j <= |url|
    ensures url == url[..i] + url[i..j] + url[j..]
  {
  }

  /** A URL with a match has parts. */
  lemma FoundHasParts(url: string, param: string) returns (before: string, value: string, after: string)
    requires Find(url, Query(param), 0).At?
    ensures Parts(url, param, before, value, after)
  {
    var query := Query(param);
    var pos := Find(url, query, 0).index + |query|;
    NoneBefore(url, query, pos);
    ValueStops(url, pos);
    before, value, after := url[..pos], ValueOf(url, param), url[ValueEnd(url, pos)..];
    assert Separated(after);
    Thirds(url, pos, ValueEnd(url, pos));
    hide EndsFirst, Find, Occurs, ValueEnd, Separated;
    assert Parts(url, param, before, value, after);
  }

  ghost predicate OnlyValueChanges(url: string, param: string, v: string, url': string) {
    exists before, value, after :: Parts(url, param, before, value, after) && url' == before + v + after
  }

  /** With a match, all text outside the first match's value stays. */
  lemma FoundChangesOnlyValue(url: string, param: string, v: string)
    requires Find(url, Query(param), 0).At?
    ensures OnlyValueChanges(url, param, v, Replaced(url, param, v))
  {
    hide Parts, Find, Replaced;
    var before, value, after := FoundHasParts(url, param);
    PartsReplaced(url, param, before, value, after, v);
    assert OnlyValueChanges(url, param, v, Replaced(url, param, v));
  }

  // ---- whose value changes ----

  predicate Separates(c: char) { c == '?' || c == '&' }

  /** Where the name that ends before position `at` starts: after the last '?' or '&', or with the text. */
  function NameStart(url: string, at: nat): (start: nat)
    requires at <= |url|
    ensures start <= at && (start == 0 || Separates(url[start - 1]))
    ensures forall k | start <= k < at :: !Separates(url[k])
  {
    if at == 0 || Separates(url[at - 1]) then at else NameStart(url, at - 1)
  }

  function NameBefore(url: string, at: nat): string
    requires at <= |url|
  {
    url[NameStart(url, at)..at]
  }

  predicate Unseparated(name: string) { forall c | c in name :: !Separates(c) }

  lemma NamedIff(url: string, i: nat, param: string)
    requires i + |param| <= |url| && url[i..i + |param|] == param
    ensures NameBefore(url, i + |param|) == param
            <==> (i == 0 || Separates(url[i - 1])) && Unseparated(param)
  {
    var n := |param|;
    var start := NameStart(url, i + n);
    hide NameStart;
    assert NameBefore(url, i + n) == url[start..i + n];
    hide NameBefore, Separates;
    assert forall k | i <= k < i + n :: url[k] == param[k - i];
    if Unseparated(param) && (i == 0 || Separates(url[i - 1])) {
      assert start <= i;
    }
  }

  lemma MatchStartsWithName(url: string, param: string, i: nat)
    requires Occurs(url, Query(param), i)
    ensures i + |param| <= |url| && url[i..i + |param|] == param
  {
    hide Find;
    var n := |param|;
    assert url[i..i + n] == url[i..i + n + 1][..n];
    assert Query(param)[..n] == param;
  }

  /** The first match is the parameter itself, and not the end of another one's name, exactly if it
      comes at the start or right after a '?' or an '&', and the name asked for holds neither. */
  lemma ChangesOwnIff(url: string, param: string)
    requires Find(url, Query(param), 0).At?
    ensures var i := Find(url, Query(param), 0).index;
            && i + |param| <= |url|
            && (NameBefore(url, i + |param|) == param
                <==> (i == 0 || Separates(url[i - 1])) && Unseparated(param))
  {
    hide *;
    var i := Find(url, Query(param), 0).index;
    MatchStartsWithName(url, param, i);
    NamedIff(url, i, param);
  }

  lemma UidEndsInId()
    ensures EndsFirst("/p?uid=", "id=")
  {
    var text := "/p?uid=";
    assert text[4..7] == "id=";
    forall j | 0 <= j < 4 ensures !Occurs(text, "id=", j) {
      assert text[j..j + 3][1] == text[j + 1] != 'd' == "id="[1];
    }
  }

  lemma UidIsNamed()
    ensures NameBefore("/p?uid=5", 6) == "uid"
  {
    var url := "/p?uid=5";
    var start := NameStart(url, 6);
    hide NameStart;
    assert start == 3 by {
      assert url[2] == '?' && forall k | 3 <= k < 6 :: !Separates(url[k]);
    }
    assert url[3..6] == "uid";
  }

  /** An example: setting `id` where there is only a `uid` changes the `uid`. */
  lemma EndOfNameMatches()
    ensures Replaced("/p?uid=5", "id", "7") == "/p?uid=7" && NameBefore("/p?uid=5", 6) == "uid"
  {
    UidEndsInId();
    hide EndsFirst, Find, Occurs, ValueEnd, Replaced;
    assert Query("id") == "id=" && "/p?uid=5" == "/p?uid=" + "5" + "" && "/p?uid=7" == "/p?uid=" + "7" + "";
    PartsReplaced("/p?uid=5", "id", "/p?uid=", "5", "", "7");
    UidIsNamed();
  }

  // ---- where a missing parameter goes ----

  lemma QueryMark(url: string)
    ensures Find(url, "?", 0).At? <==> '?' in url
  {
    if Find(url, "?", 0).Npos? {
      forall k | 0 <= k < |url| ensures url[k] != '?' {
        assert !Occurs(url, "?", k);
        assert url[k..k + 1] == [url[k]];
      }
    } else {
      var i := Find(url, "?", 0).index;
      assert url[i..i + 1] == "?" && url[i] == url[i..i + 1][0];
    }
  }

  /** A missing parameter becomes the last of a query that is there already, and otherwise begins one;
      and what is appended is that parameter, if its name holds no '?' and no '&'. */
  lemma AppendsToQuery(url: string, param: string, v: string)
    requires Find(url, Query(param), 0).Npos?
    ensures '?' in url ==> Replaced(url, param, v) == url + "&" + param + "=" + v
    ensures '?' !in url ==> Replaced(url, param, v) == url + "?" + param + "=" + v
    ensures Unseparated(param) ==> NameBefore(Replaced(url, param, v), |url| + 1 + |param|) == param
  {
    QueryMark(url);
    AppendedIsNamed(url, Separator(url), param, v);
    var separator := Separator(url);
    assert separator == if '?' in url then "&" else "?";
    assert Replaced(url, param, v) == url + separator + (param + "=") + v;
    hide Find, Separator, Replaced, NameBefore;
    Flatten(url + separator, param, "=", v);
  }

  lemma Flatten(a: string, b: string, c: string, d: string)
    ensures a + (b + c) + d == a + b + c + d
  {
  }

  lemma AppendedIsNamed(url: string, separator: string, param: string, v: string)
    requires separator == "?" || separator == "&"
    ensures var text := url + separator + (param + "=") + v;
            Unseparated(param) ==> NameBefore(text, |url| + 1 + |param|) == param
  {
    var text, i := url + separator + (param + "=") + v, |url| + 1;
    assert text[i - 1] == separator[0];
    assert text[i..i + |param|] == param;
    hide NameBefore, Unseparated;
    NamedIff(text, i, param);
  }

  // ---- last write wins ----

  /** A value with an '&' splits in two when it is read back. */
  function UpToAmpersand(v: string): (head: string)
    ensures |head| <= |v| && head == v[..|head|] && '&' !in head
    ensures |head| < |v| ==> v[|head|] == '&'
  {
    if v == "" || v[0] == '&' then "" else [v[0]] + UpToAmpersand(v[1..])
  }

  lemma SplitAtAmpersand(v: string) returns (rest: string)
    ensures v == UpToAmpersand(v) + rest && Separated(rest)
  {
    rest := v[|UpToAmpersand(v)|..];
  }

  lemma Regroup(a: string, b: string, c: string, d: string)
    ensures a + (b + c) + d == a + b + (c + d)
  {
  }

  lemma WrittenHasParts(before: string, v: string, after: string, param: string) returns (rest: string)
    requires EndsFirst(before, Query(param)) && Separated(after)
    ensures v == UpToAmpersand(v) + rest
    ensures Parts(before + v + after, param, before, UpToAmpersand(v), rest + after)
  {
    rest := SplitAtAmpersand(v);
    assert Separated(rest + after) && '&' !in UpToAmpersand(v);
    hide EndsFirst, Separated, UpToAmpersand, Query;
    Regroup(before, UpToAmpersand(v), rest, after);
    assert Parts(before + v + after, param, before, UpToAmpersand(v), rest + after);
  }

  /** What a replacement has written: everything through the '=', and what follows the value. */
  ghost predicate Writes(url: string, param: string, before: string, after: string) {
    && EndsFirst(before, Query(param)) && Separated(after)
    && forall v :: Replaced(url, param, v) == before + v + after
  }

  lemma FoundWrites(url: string, param: string) returns (before: string, after: string)
    requires Find(url, Query(param), 0).At?
    ensures Writes(url, param, before, after)
  {
    var value;
    before, value, after := FoundHasParts(url, param);
    hide EndsFirst, Separated, Find, ValueOf, Replaced;
    forall v ensures Replaced(url, param, v) == before + v + after {
      PartsReplaced(url, param, before, value, after, v);
    }
  }

  /** The URL with the parameter appended and no value yet. */
  function Appended(url: string, param: string): string {
    url + Separator(url) + Query(param)
  }

  /** The parameter is there, or its first match once it is appended is where it was appended. */
  predicate Exact(url: string, param: string) {
    Find(url, Query(param), 0).At? || Find(Appended(url, param), Query(param), 0) == At(|url| + 1)
  }

  lemma AppendedOccurs(url: string, param: string)
    ensures Occurs(Appended(url, param), Query(param), |url| + 1)
  {
    assert |Separator(url)| == 1;
    assert Appended(url, param)[|url| + 1..] == Query(param);
  }

  /** A parameter whose name holds no '=' cannot match across the place where it is appended. */
  lemma PlainIsExact(url: string, param: string)
    requires '=' !in param
    ensures Exact(url, param)
  {
    var query, sep, text := Query(param), Separator(url), Appended(url, param);
    if Find(url, query, 0).Npos? {
      forall j | 0 <= j < |url| + 1 ensures !Occurs(text, query, j) {
        if j + |query| <= |url| {
          assert text == url + (sep + query);
          OccursInPrefix(url, sep + query, query, j);
        } else if j + |query| <= |text| {
          var last := j + |query| - 1;
          assert text[last] == if last == |url| then sep[0] else param[last - |url| - 1];
          assert text[last] != '=' == query[|query| - 1];
          assert text[j..j + |query|][|query| - 1] == text[last];
        }
      }
      AppendedOccurs(url, param);
      FindIs(text, query, 0, |url| + 1);
    }
  }

  lemma AppendedWrites(url: string, param: string) returns (before: string, after: string)
    requires Find(url, Query(param), 0).Npos? && Exact(url, param)
    ensures Writes(url, param, before, after)
  {
    before, after := Appended(url, param), "";
    assert EndsFirst(before, Query(param));
    forall v ensures Replaced(url, param, v) == before + v + after {
      assert before + v + after == before + v;
    }
  }

  lemma ExactWrites(url: string, param: string) returns (before: string, after: string)
    requires Exact(url, param)
    ensures Writes(url, param, before, after)
  {
    if Find(url, Query(param), 0).At? {
      before, after := FoundWrites(url, param);
    } else {
      before, after := AppendedWrites(url, param);
    }
  }

  predicate ReadsBack(url: string, param: string, v: string) {
    Find(Replaced(url, param, v), Query(param), 0).At? && ValueOf(Replaced(url, param, v), param) == UpToAmpersand(v)
  }

  predicate LastWins(url: string, param: string, v1: string, v2: string) {
    Replaced(Replaced(url, param, v1), param, v2) == Replaced(url, param, v2)
  }

  /** What is written is read back, up to its first '&'. */
  lemma ExactReadsBack(url: string, param: string, v: string)
    requires Exact(url, param)
    ensures ReadsBack(url, param, v)
  {
    var before, after := ExactWrites(url, param);
    var rest := WrittenHasParts(before, v, after, param);
    hide Parts, Find, ValueOf, EndsFirst, Separated, UpToAmpersand;
    PartsReplaced(before + v + after, param, before, UpToAmpersand(v), rest + after, v);
    assert Replaced(url, param, v) == before + v + after;
  }

  /** The last write wins for just the first values without an '&'. */
  lemma ExactLastWins(url: string, param: string, v1: string, v2: string)
    requires Exact(url, param)
    ensures LastWins(url, param, v1, v2) <==> '&' !in v1
  {
    var before, after := ExactWrites(url, param);
    var rest := WrittenHasParts(before, v1, after, param);
    assert '&' !in v1 <==> rest == "";
    hide Parts, Find, ValueOf, EndsFirst, Separated, UpToAmpersand;
    PartsReplaced(before + v1 + after, param, before, UpToAmpersand(v1), rest + after, v2);
    assert LastWins(url, param, v1, v2) <==> before + v2 + (rest + after) == before + v2 + after;
    hide *;
    assert |before + v2 + (rest + after)| == |before + v2 + after| + |rest|;
    if rest == "" {
      assert rest + after == after;
    }
  }

  /** Otherwise the first match lies across the border: it ends before the appended text does. */
  lemma AcrossHasParts(url: string, param: string) returns (before: string, value: string, after: string)
    requires !Exact(url, param)
    ensures Parts(Appended(url, param), param, before, value, after) && value + after != ""
    ensures forall v :: Replaced(url, param, v) == Appended(url, param) + v
  {
    var text := Appended(url, param);
    AppendedOccurs(url, param);
    before, value, after := FoundHasParts(text, param);
    PartsReplaced(text, param, before, value, after, "");
    hide Parts, Find;
    assert text == before + value + after;
    assert |before| < |text|;
  }

  lemma AcrossMisreads(url: string, param: string)
    requires !Exact(url, param)
    ensures exists v :: !ReadsBack(url, param, v)
  {
    var before, value, after := AcrossHasParts(url, param);
    var text := Appended(url, param);
    if value != "" {
      PartsReplaced(text, param, before, value, after, "");
      assert text + "" == text;
      assert !ReadsBack(url, param, "");
    } else {
      assert text + "x" == before + "" + (after + "x");
      PartsReplaced(text + "x", param, before, "", after + "x", "");
      assert UpToAmpersand("x") == "x";
      assert !ReadsBack(url, param, "x");
    }
  }

  lemma AcrossLoses(url: string, param: string)
    requires !Exact(url, param)
    ensures !LastWins(url, param, "", "x")
  {
    var before, value, after := AcrossHasParts(url, param);
    var text := Appended(url, param);
    assert text + "" == text;
    PartsReplaced(text, param, before, value, after, "x");
    var twice, once := before + "x" + after, text + "x";
    assert Replaced(url, param, "x") == once && Replaced(Replaced(url, param, ""), param, "x") == twice;
    assert Separated(after) && text == before + value + after;
    hide Find, Replaced, Parts, EndsFirst, Appended;
    assert twice[|before|] == 'x';
    assert |twice| == |once| ==> value == "" && once[|before|] == after[0] == '&';
  }

  /** Whatever is written is read back, up to its first '&', for exactly these URLs and names. */
  lemma WriteIsReadIff(url: string, param: string)
    ensures Exact(url, param) <==> forall v :: ReadsBack(url, param, v)
  {
    hide Exact, ReadsBack;
    if Exact(url, param) {
      forall v ensures ReadsBack(url, param, v) {
        ExactReadsBack(url, param, v);
      }
    } else {
      AcrossMisreads(url, param);
    }
  }

  /** After a first value without an '&' the last write wins, for exactly these URLs and names. */
  lemma LastWriteWinsIff(url: string, param: string)
    ensures Exact(url, param) <==> forall v1, v2 | '&' !in v1 :: LastWins(url, param, v1, v2)
  {
    hide Exact, LastWins;
    if Exact(url, param) {
      forall v1, v2 | '&' !in v1 ensures LastWins(url, param, v1, v2) {
        ExactLastWins(url, param, v1, v2);
      }
    } else {
      AcrossLoses(url, param);
      assert '&' !in "";
    }
  }

  /** A missing parameter whose name has an '=' that matches where the appended text begins: the
      last write does not win although the first value holds no '&'. */
  lemma EqualsInNameLoses()
    ensures !Exact("=", "=?")
    ensures Replaced(Replaced("=", "=?", ""), "=?", "x") == "=?=x" != Replaced("=", "=?", "x")
  {
    var text := "=?=?=";
    assert "="[0..1] == "=";
    assert Query("=?") == "=?=" && !Occurs("=", "?", 0);
    assert Appended("=", "=?") == text && Occurs(text, "=?=", 0);
    FindIs(text, "=?=", 0, 0);
    assert text == "=?=" + "?=" + "";
    PartsReplaced(text, "=?", "=?=", "?=", "", "x");
    assert Replaced("=", "=?", "") == text + "" == text;
    AcrossLoses("=", "=?");
  }
}
