/** The partition tag at the end of a model-server URL: how it is written and read back. */
module Urls {
  import Split

  // ---- std::to_string and std::stoi ----

  predicate IsDigit(c: char) { '0' <= c <= '9' }

  predicate IsSpace(c: char) { c == ' ' || '\t' <= c <= '\r' }

  function Digit(d: nat): char
    requires d < 10
  {
    '0' + d as char
  }

  function Decimal(n: nat): (s: string)
    ensures s != [] && forall i | 0 <= i < |s| :: IsDigit(s[i])
  {
    if n < 10 then [Digit(n)] else Decimal(n / 10) + [Digit(n % 10)]
  }

  function LeadingDigits(s: string): (ds: string)
    ensures forall i | 0 <= i < |ds| :: IsDigit(ds[i])
  {
    if s == [] || !IsDigit(s[0]) then [] else [s[0]] + LeadingDigits(s[1..])
  }

  function DecimalValue(ds: string): nat
    requires forall i | 0 <= i < |ds| :: IsDigit(ds[i])
  {
    if ds == [] then 0
    else
      assert IsDigit(ds[|ds| - 1]);
      10 * DecimalValue(ds[..|ds| - 1]) + (ds[|ds| - 1] as int - '0' as int)
  }

  function SkipSpaces(s: string): string {
    if s != [] && IsSpace(s[0]) then SkipSpaces(s[1..]) else s
  }

  datatype Parse = Parsed(value: int) | InvalidArgument | OutOfRange

  /** std::stoi in base ten: leading white space, an optional sign, then at least one digit. */
  function Stoi(text: string): Parse {
    var s := SkipSpaces(text);
    var negative := s != [] && s[0] == '-';
    var unsigned := if s != [] && (s[0] == '-' || s[0] == '+') then s[1..] else s;
    var ds := LeadingDigits(unsigned);
    if ds == [] then InvalidArgument
    else
      var v: int := if negative then 0 - DecimalValue(ds) else DecimalValue(ds);
      if -0x8000_0000 <= v < 0x8000_0000 then Parsed(v) else OutOfRange
  }

  lemma {:induction false} AllDigitsLead(s: string)
    requires forall i | 0 <= i < |s| :: IsDigit(s[i])
    ensures LeadingDigits(s) == s
  {
    if s != [] {
      AllDigitsLead(s[1..]);
    }
  }

  lemma {:induction false} ValueOfDecimal(n: nat)
    ensures DecimalValue(Decimal(n)) == n
  {
    if n >= 10 {
      ValueOfDecimal(n / 10);
      var s := Decimal(n);
      assert s[..|s| - 1] == Decimal(n / 10);
      assert s[|s| - 1] as int - '0' as int == n % 10;
    } else {
      assert Decimal(n)[..0] == [];
    }
  }

  /** Reading back a written partition number. */
  lemma StoiOfDecimal(n: nat)
    ensures Stoi(Decimal(n)) == if n < 0x8000_0000 then Parsed(n) else OutOfRange
  {
    var s := Decimal(n);
    assert IsDigit(s[0]);
    AllDigitsLead(s);
    ValueOfDecimal(n);
  }

  /** Digits, and then something else. */
  lemma {:induction false} DigitsLead(ds: string, rest: string)
    requires (forall i | 0 <= i < |ds| :: IsDigit(ds[i])) && (rest == "" || !IsDigit(rest[0]))
    ensures LeadingDigits(ds + rest) == ds
  {
    if ds == "" {
      assert ds + rest == rest;
    } else {
      assert (ds + rest)[1..] == ds[1..] + rest;
      DigitsLead(ds[1..], rest);
    }
  }

  lemma AfterSign(sign: char, ds: string, rest: string)
    requires (forall i | 0 <= i < |ds| :: IsDigit(ds[i])) && (rest == "" || !IsDigit(rest[0])) && !IsSpace(sign)
    ensures var s := [sign] + ds + rest; SkipSpaces(s) == s && s[0] == sign && LeadingDigits(s[1..]) == ds
  {
    var s := [sign] + ds + rest;
    assert s[1..] == ds + rest;
    DigitsLead(ds, rest);
  }

  /** A sign may come before the number, and anything but a digit after it. */
  lemma StoiOfSigned(n: nat, rest: string)
    requires n < 0x8000_0000 && (rest == "" || !IsDigit(rest[0]))
    ensures Stoi("-" + Decimal(n) + rest) == Parsed(0 - n) && Stoi("+" + Decimal(n) + rest) == Parsed(n)
  {
    AfterSign('-', Decimal(n), rest);
    AfterSign('+', Decimal(n), rest);
    ValueOfDecimal(n);
    hide Decimal, DecimalValue, LeadingDigits, SkipSpaces;
  }

  /** White space before it is skipped. */
  lemma StoiSkipsSpace(c: char, text: string)
    ensures IsSpace(c) ==> Stoi([c] + text) == Stoi(text)
    ensures !IsSpace(c) && !IsDigit(c) && c != '-' && c != '+' ==> Stoi([c] + text) == InvalidArgument
  {
    assert ([c] + text)[1..] == text;
  }

  // ---- the URL ----

  /** std::string::rfind for one character; -1 stands for npos. */
  function RFind(s: string, c: char): (p: int)
    ensures -1 <= p < |s|
    ensures p >= 0 ==> s[p] == c
    ensures forall i | p < i < |s| :: s[i] != c
  {
    if s == [] then -1
    else if s[|s| - 1] == c then |s| - 1
    else RFind(s[..|s| - 1], c)
  }

  /** get_ms_url for a chosen host. */
  function MsUrl(host: string, name: string, version: string, partition: nat): string {
    host + "/1/" + (name + "/" + version + "/" + Decimal(partition))
  }

  /** The partition the reply callback reads out of a URL; -1 when there is no slash. */
  function PartitionOf(url: string): Parse {
    var pos := RFind(url, '/');
    if pos == -1 then Parsed(-1) else Stoi(url[pos + 1..])
  }

  lemma AfterPrefix(prefix: string, tail: string)
    ensures (prefix + tail)[|prefix|..] == tail
    ensures forall i | |prefix| <= i < |prefix + tail| :: (prefix + tail)[i] == tail[i - |prefix|]
  {
  }

  lemma LastSegment(head: string, tail: string)
    requires '/' !in tail
    ensures RFind(head + "/" + tail, '/') == |head|
    ensures (head + "/" + tail)[|head| + 1..] == tail
  {
    hide RFind;
    var prefix := head + "/";
    AfterPrefix(prefix, tail);
    var s := prefix + tail;
    assert |prefix| == |head| + 1 && s[|head|] == '/';
    assert forall i | |head| < i < |s| :: s[i] != '/';
  }

  /** The tag round trip: whatever the host, name and version contain, the callback reads back
      the partition the URL was built for, if it fits an int. */
  lemma TagRoundTrip(host: string, name: string, version: string, partition: nat)
    ensures PartitionOf(MsUrl(host, name, version, partition))
            == if partition < 0x8000_0000 then Parsed(partition) else OutOfRange
  {
    var tail := Decimal(partition);
    forall i | 0 <= i < |tail|
      ensures tail[i] != '/'
    {
      assert IsDigit(tail[i]);
    }
    var head := host + "/1/" + name + "/" + version;
    assert MsUrl(host, name, version, partition) == head + "/" + tail;
    LastSegment(head, tail);
    StoiOfDecimal(partition);
  }

  lemma {:induction false} FiveJoined(a: string, b: string, c: string, d: string, e: string)
    ensures Split.Join([a, b, c, d, e], '/') == a + "/" + b + "/" + c + "/" + d + "/" + e
  {
    assert [a, b, c, d, e][1..] == [b, c, d, e] && [b, c, d, e][1..] == [c, d, e] && [c, d, e][1..] == [d, e];
    assert [d, e][1..] == [e];
    assert Split.Join([d, e], '/') == d + "/" + e;
    assert Split.Join([c, d, e], '/') == c + "/" + (d + "/" + e);
    assert Split.Join([b, c, d, e], '/') == b + "/" + (c + "/" + (d + "/" + e));
  }

  /** Taken apart at its slashes, the URL is the host, a 1, the model's name and version, and the
      partition, if none of them holds a slash. */
  lemma UrlPieces(host: string, name: string, version: string, partition: nat)
    requires Split.Free(host, "/") && Split.Free(name, "/") && Split.Free(version, "/")
    ensures Split.SplitOf(MsUrl(host, name, version, partition), "/") == [host, "1", name, version, Decimal(partition)]
  {
    var tail := Decimal(partition);
    forall i | 0 <= i < |tail| ensures tail[i] !in "/" {
      assert IsDigit(tail[i]);
    }
    assert MsUrl(host, name, version, partition) == host + "/" + "1" + "/" + name + "/" + version + "/" + tail;
    FiveJoined(host, "1", name, version, tail);
    hide Decimal, Split.SplitOf, Split.Join;
    Split.SplitOfJoin([host, "1", name, version, tail], '/');
  }

  /** An example. */
  lemma UrlExample()
    ensures MsUrl("10.0.0.1:80", "ctr", "v3", 12) == "10.0.0.1:80/1/ctr/v3/12"
  {
    assert Decimal(12) == Decimal(1) + [Digit(2)] == "12";
  }
}
