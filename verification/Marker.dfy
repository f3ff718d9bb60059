/** The interrupted-rebuild marker: a one-line list of key=value fields, read for display. */
module Marker {
  import opened Text

  datatype PartialCopy = PartialCopy(
    raw: string, readable: bool, verb: string, atUnix: int, actionID: string, host: string, asideStamp: string)

  const BLANK := PartialCopy("", false, "", 0, "", "", "")

  /** The cap the engine writes under, beyond which a value is trimmed before it is read. */
  const MAX_RAW := 512

  const MAX_INT64 := 0x7FFF_FFFF_FFFF_FFFF

  predicate KnownVerb(verb: string) {
    verb == "reinit" || verb == "force-clean" || verb == "full-sync" || verb == "restore"
  }

  predicate KnownKey(key: string) {
    key == "verb" || key == "at" || key == "action" || key == "host" || key == "aside"
  }

  // ----- text into fields -----

  predicate Without(s: string, c: char) { forall i | 0 <= i < |s| :: s[i] != c }

  function Split(s: string): (r: seq<string>)
    ensures r != []
  {
    if s == [] then [""]
    else if s[0] == ',' then [""] + Split(s[1..])
    else var r := Split(s[1..]); [[s[0]] + r[0]] + r[1..]
  }

  function Join(fields: seq<string>): string {
    if fields == [] then ""
    else if |fields| == 1 then fields[0]
    else fields[0] + "," + Join(fields[1..])
  }

  datatype Field = Field(key: string, value: string)

  /** A field cut at its first equals sign. */
  function Cut(field: string): Option<Field> {
    if field == [] then None
    else if field[0] == '=' then Some(Field("", field[1..]))
    else
      var rest := Cut(field[1..]);
      if rest.None? then None else Some(Field([field[0]] + rest.value.key, rest.value.value))
  }

  // ----- numbers -----

  predicate IsDigit(c: char) { '0' <= c <= '9' }

  function DigitsValue(s: string): (n: int)
    requires forall i | 0 <= i < |s| :: IsDigit(s[i])
    ensures n >= 0
  {
    if s == [] then 0
    else
      assert IsDigit(s[|s| - 1]);
      10 * DigitsValue(s[..|s| - 1]) + (s[|s| - 1] as int - '0' as int)
  }

  predicate AllDigits(s: string) { s != [] && forall i | 0 <= i < |s| :: IsDigit(s[i]) }

  /** A signed 64-bit decimal. */
  function ParseInt(s: string): Option<int> {
    if AllDigits(s) then
      if DigitsValue(s) <= MAX_INT64 then Some(DigitsValue(s)) else None
    else if s != [] && s[0] == '+' && AllDigits(s[1..]) then
      if DigitsValue(s[1..]) <= MAX_INT64 then Some(DigitsValue(s[1..])) else None
    else if s != [] && s[0] == '-' && AllDigits(s[1..]) then
      if DigitsValue(s[1..]) <= MAX_INT64 + 1 then Some(-DigitsValue(s[1..])) else None
    else None
  }

  function PrintNat(n: nat): string {
    if n < 10 then [('0' as int + n) as char] else PrintNat(n / 10) + [('0' as int + n % 10) as char]
  }

  lemma {:induction false} PrintedParses(n: nat)
    ensures AllDigits(PrintNat(n)) && DigitsValue(PrintNat(n)) == n
  {
    if n >= 10 {
      PrintedParses(n / 10);
      var s, last := PrintNat(n / 10), ('0' as int + n % 10) as char;
      assert (s + [last])[..|s|] == s;
    } else {
      var s := PrintNat(n);
      assert s[..0] == [];
    }
  }

  // ----- reading -----

  /** What a key and a value mean: unknown keys mean nothing. */
  function TakeKeyed(p: PartialCopy, key: string, value: string): PartialCopy {
    if key == "verb" then p.(verb := value)
    else if key == "at" then
      var n := ParseInt(value);
      if n.Some? && n.value > 0 then p.(atUnix := n.value) else p
    else if key == "action" then p.(actionID := value)
    else if key == "host" then p.(host := value)
    else if key == "aside" then (if value != "omitted" then p.(asideStamp := value) else p)
    else p
  }

  /** One field, as the reader takes it; one without a value is passed over. */
  function Take(p: PartialCopy, field: string): PartialCopy {
    var cut := Cut(field);
    if cut.None? then p else TakeKeyed(p, Trim(cut.value.key), Trim(cut.value.value))
  }

  function TakeAll(p: PartialCopy, fields: seq<string>): PartialCopy
    decreases |fields|
  {
    if fields == [] then p else TakeAll(Take(p, fields[0]), fields[1..])
  }

  function Capped(s: string): string { if |s| > MAX_RAW then s[..MAX_RAW] else s }

  function Parse(raw: string): PartialCopy {
    var text := Capped(Trim(raw));
    if text == "" then BLANK
    else
      var p := TakeAll(BLANK.(raw := text), Split(text));
      p.(readable := KnownVerb(p.verb))
  }

  method ParsePartialCopy(raw: string) returns (p: PartialCopy)
    ensures p == Parse(raw)
  {
    p := BLANK.(raw := Trim(raw));
    if p.raw == "" {
      return;
    }
    if |p.raw| > MAX_RAW {
      p := p.(raw := p.raw[..MAX_RAW]);
    }
    var fields := Split(p.raw);
    ghost var start := p;
    for i := 0 to |fields|
      invariant TakeAll(p, fields[i..]) == TakeAll(start, fields)
    {
      var cut := Cut(fields[i]);
      assert fields[i..][1..] == fields[i + 1..];
      if cut == None {
        continue;
      }
      var key, value := Trim(cut.value.key), Trim(cut.value.value);
      if key == "verb" {
        p := p.(verb := value);
      } else if key == "at" {
        var n := ParseInt(value);
        if n.Some? && n.value > 0 {
          p := p.(atUnix := n.value);
        }
      } else if key == "action" {
        p := p.(actionID := value);
      } else if key == "host" {
        p := p.(host := value);
      } else if key == "aside" {
        if value != "omitted" {
          p := p.(asideStamp := value);
        }
      }
    }
    RawStays(start, fields);
    p := p.(readable := KnownVerb(p.verb));
  }

  lemma {:induction false} RawStays(p: PartialCopy, fields: seq<string>)
    ensures TakeAll(p, fields).raw == p.raw && TakeAll(p, fields).readable == p.readable
    decreases |fields|
  {
    if fields != [] { RawStays(Take(p, fields[0]), fields[1..]); }
  }

  // ----- round trip -----

  lemma {:induction false} SplitPlain(s: string)
    requires Without(s, ',')
    ensures Split(s) == [s]
  {
    if s != [] {
      SplitPlain(s[1..]);
      assert [s[0]] + s[1..] == s;
    }
  }

  lemma {:induction false} SplitAfterComma(s: string, rest: string)
    requires Without(s, ',')
    ensures Split(s + "," + rest) == [s] + Split(rest)
  {
    if s == [] {
      assert (s + "," + rest)[1..] == rest;
    } else {
      assert (s + "," + rest)[1..] == s[1..] + "," + rest;
      SplitAfterComma(s[1..], rest);
      assert [s[0]] + s[1..] == s;
    }
  }

  lemma {:induction false} SplitJoin(fields: seq<string>)
    requires fields != [] && forall f | f in fields :: Without(f, ',')
    ensures Split(Join(fields)) == fields
  {
    assert fields[0] in fields;
    if |fields| == 1 {
      SplitPlain(fields[0]);
    } else {
      SplitJoin(fields[1..]);
      SplitAfterComma(fields[0], Join(fields[1..]));
    }
  }

  lemma {:induction false} CutWritten(key: string, value: string)
    requires Without(key, '=')
    ensures Cut(key + "=" + value) == Some(Field(key, value))
  {
    if key == [] {
      assert (key + "=" + value)[1..] == value;
    } else {
      assert (key + "=" + value)[1..] == key[1..] + "=" + value;
      CutWritten(key[1..], value);
      assert [key[0]] + key[1..] == key;
    }
  }

  lemma TakeWritten(p: PartialCopy, key: string, value: string)
    requires Without(key, '=') && Trimmed(key) && Trimmed(value)
    ensures Take(p, Written(key, value)) == TakeKeyed(p, key, value)
  {
    CutWritten(key, value);
    TrimIsTrimmed(key);
    TrimIsTrimmed(value);
  }

  function Written(key: string, value: string): string { key + "=" + value }

  function Stamp(aside: string): string { if aside == "" then "omitted" else aside }

  function Fields(verb: string, at: nat, action: string, host: string, aside: string): seq<string> {
    [Written("verb", verb), Written("at", PrintNat(at)), Written("action", action), Written("host", host),
     Written("aside", Stamp(aside))]
  }

  /** The marker as the engine writes it. */
  function Print(verb: string, at: nat, action: string, host: string, aside: string): string {
    Join(Fields(verb, at, action, host, aside))
  }

  predicate Plain(s: string) { Trimmed(s) && Without(s, ',') }

  lemma NumbersArePlain(n: nat)
    ensures Plain(PrintNat(n)) && (n <= MAX_INT64 ==> ParseInt(PrintNat(n)) == Some(n))
  {
    PrintedParses(n);
  }

  lemma WrittenIsPlain(key: string, value: string)
    requires KnownKey(key) && Without(value, ',')
    ensures Without(Written(key, value), ',')
  {}

  lemma TakeVerb(p: PartialCopy, value: string)
    requires Trimmed(value)
    ensures Take(p, Written("verb", value)) == p.(verb := value)
  {
    TakeWritten(p, "verb", value);
  }

  lemma TakeAt(p: PartialCopy, at: nat)
    requires at <= MAX_INT64 && p.atUnix == 0
    ensures Take(p, Written("at", PrintNat(at))) == p.(atUnix := at)
  {
    NumbersArePlain(at);
    TakeWritten(p, "at", PrintNat(at));
  }

  lemma TakeAction(p: PartialCopy, value: string)
    requires Trimmed(value)
    ensures Take(p, Written("action", value)) == p.(actionID := value)
  {
    TakeWritten(p, "action", value);
  }

  lemma TakeHost(p: PartialCopy, value: string)
    requires Trimmed(value)
    ensures Take(p, Written("host", value)) == p.(host := value)
  {
    TakeWritten(p, "host", value);
  }

  lemma TakeAside(p: PartialCopy, aside: string)
    requires Trimmed(aside) && aside != "omitted" && p.asideStamp == ""
    ensures Take(p, Written("aside", Stamp(aside))) == p.(asideStamp := aside)
  {
    TakeWritten(p, "aside", Stamp(aside));
  }

  lemma FieldsTake(verb: string, at: nat, action: string, host: string, aside: string, raw: string)
    requires Plain(verb) && Plain(action) && Plain(host) && Plain(aside) && aside != "omitted" && at <= MAX_INT64
    ensures TakeAll(BLANK.(raw := raw), Fields(verb, at, action, host, aside))
            == PartialCopy(raw, false, verb, at, action, host, aside)
  {
    var p0 := BLANK.(raw := raw);
    var p1 := p0.(verb := verb);
    var p2 := p1.(atUnix := at);
    var p3 := p2.(actionID := action);
    var p4 := p3.(host := host);
    TakeVerb(p0, verb);
    TakeAt(p1, at);
    TakeAction(p2, action);
    TakeHost(p3, host);
    TakeAside(p4, aside);
    FiveFields(p0, p1, p2, p3, p4, p4.(asideStamp := aside), Fields(verb, at, action, host, aside));
  }

  lemma FiveFields(p0: PartialCopy, p1: PartialCopy, p2: PartialCopy, p3: PartialCopy, p4: PartialCopy, p5: PartialCopy,
                   fs: seq<string>)
    requires |fs| == 5
    requires Take(p0, fs[0]) == p1 && Take(p1, fs[1]) == p2 && Take(p2, fs[2]) == p3
    requires Take(p3, fs[3]) == p4 && Take(p4, fs[4]) == p5
    ensures TakeAll(p0, fs) == p5
  {
    assert fs[1..][1..] == fs[2..] && fs[2..][1..] == fs[3..] && fs[3..][1..] == fs[4..] && fs[4..][1..] == [];
    assert TakeAll(p4, fs[4..]) == TakeAll(p5, []) == p5;
    assert TakeAll(p3, fs[3..]) == TakeAll(p4, fs[4..]);
    assert TakeAll(p2, fs[2..]) == TakeAll(p3, fs[3..]);
    assert TakeAll(p1, fs[1..]) == TakeAll(p2, fs[2..]);
  }

  lemma {:induction false} JoinEnds(fields: seq<string>)
    requires fields != [] && fields[0] != "" && fields[|fields| - 1] != ""
    ensures Join(fields) != "" && Join(fields)[0] == fields[0][0]
    ensures var last := fields[|fields| - 1]; Join(fields)[|Join(fields)| - 1] == last[|last| - 1]
  {
    if |fields| > 1 {
      assert fields[1..][|fields| - 2] == fields[|fields| - 1];
      JoinTail(fields[1..]);
    }
  }

  lemma {:induction false} JoinTail(fields: seq<string>)
    requires fields != [] && fields[|fields| - 1] != ""
    ensures var last := fields[|fields| - 1];
            Join(fields) != "" && Join(fields)[|Join(fields)| - 1] == last[|last| - 1]
  {
    if |fields| > 1 { JoinTail(fields[1..]); }
  }

  /** A marker printed and read back is the marker. */
  lemma RoundTrip(verb: string, at: nat, action: string, host: string, aside: string)
    requires Plain(verb) && Plain(action) && Plain(host) && Plain(aside) && aside != "omitted" && at <= MAX_INT64
    requires |Print(verb, at, action, host, aside)| <= MAX_RAW
    ensures var text := Print(verb, at, action, host, aside);
            Parse(text) == PartialCopy(text, KnownVerb(verb), verb, at, action, host, aside)
  {
    var fs, text := Fields(verb, at, action, host, aside), Print(verb, at, action, host, aside);
    var stamp := Stamp(aside);
    NumbersArePlain(at);
    WrittenIsPlain("verb", verb);
    WrittenIsPlain("at", PrintNat(at));
    WrittenIsPlain("action", action);
    WrittenIsPlain("host", host);
    WrittenIsPlain("aside", stamp);
    SplitJoin(fs);
    JoinEnds(fs);
    assert fs[4][|fs[4]| - 1] == stamp[|stamp| - 1];
    TrimIsTrimmed(text);
    FieldsTake(verb, at, action, host, aside, text);
  }

  // ----- tolerance -----

  /** A field a reader of this build has no use for. */
  predicate Unknown(field: string) { Cut(field).None? || !KnownKey(Trim(Cut(field).value.key)) }

  lemma {:induction false} TakeAllConcat(p: PartialCopy, a: seq<string>, b: seq<string>)
    ensures TakeAll(p, a + b) == TakeAll(TakeAll(p, a), b)
    decreases |a|
  {
    if a == [] {
      assert a + b == b;
    } else {
      assert (a + b)[1..] == a[1..] + b;
      TakeAllConcat(Take(p, a[0]), a[1..], b);
    }
  }

  lemma {:induction false} TrimRightBlank(v: string, c: char)
    requires IsSpace(c)
    ensures Trim(v + [c]) == Trim(v)
  {
    if v == [] {
      assert (v + [c])[1..] == [];
    } else if IsSpace(v[0]) {
      assert (v + [c])[1..] == v[1..] + [c];
      TrimRightBlank(v[1..], c);
    } else {
      assert (v + [c])[..|v|] == v;
    }
  }

  lemma {:induction false} CutAppend(f: string, c: char)
    requires c != '='
    ensures Cut(f + [c]) == if Cut(f).None? then None else Some(Field(Cut(f).value.key, Cut(f).value.value + [c]))
  {
    if f == [] {
      assert (f + [c])[1..] == [];
    } else {
      assert (f + [c])[1..] == f[1..] + [c];
      if f[0] != '=' { CutAppend(f[1..], c); }
    }
  }

  /** Blanks at either end of a field make no difference to it. */
  lemma BlanksDoNotMatter(p: PartialCopy, f: string, c: char)
    requires IsSpace(c)
    ensures Take(p, [c] + f) == Take(p, f) && Take(p, f + [c]) == Take(p, f)
  {
    assert ([c] + f)[1..] == f;
    if Cut(f).Some? {
      var k := Cut(f).value.key;
      assert ([c] + k)[1..] == k;
      assert Trim([c] + k) == Trim(k);
      TrimRightBlank(Cut(f).value.value, c);
    }
    CutAppend(f, c);
  }

  /** The fields with one more character at the end of the last. */
  function Longer(fields: seq<string>, c: char): seq<string>
    requires fields != []
  {
    fields[..|fields| - 1] + [fields[|fields| - 1] + [c]]
  }

  lemma LongerBehind(first: string, rest: seq<string>, c: char)
    requires rest != []
    ensures Longer([first] + rest, c) == [first] + Longer(rest, c)
  {
    assert ([first] + rest)[..|rest|] == [first] + rest[..|rest| - 1];
  }

  /** A character put before the first field, and one after the last, in either order. */
  lemma LongerBothEnds(x: char, fields: seq<string>, c: char)
    requires fields != []
    ensures var more := Longer(fields, c);
            Longer([[x] + fields[0]] + fields[1..], c) == [[x] + more[0]] + more[1..]
  {
    if |fields| == 1 {
      assert [x] + (fields[0] + [c]) == ([x] + fields[0]) + [c];
      assert Longer([[x] + fields[0]] + fields[1..], c) == [[x] + fields[0] + [c]];
    } else {
      LongerBehind([x] + fields[0], fields[1..], c);
      LongerBehind(fields[0], fields[1..], c);
      assert fields == [fields[0]] + fields[1..];
    }
  }

  lemma {:induction false} SplitAppend(s: string, c: char)
    requires c != ','
    ensures Split(s + [c]) == Longer(Split(s), c)
  {
    if s == [] {
      assert (s + [c])[1..] == [];
      assert Split(s + [c]) == [[c] + ""] + [""][1..];
      assert [c] + "" == [c] && "" + [c] == [c];
    } else {
      assert (s + [c])[1..] == s[1..] + [c];
      SplitAppend(s[1..], c);
      if s[0] == ',' {
        LongerBehind("", Split(s[1..]), c);
      } else {
        LongerBothEnds(s[0], Split(s[1..]), c);
      }
    }
  }

  lemma {:induction false} LeftBlanksDoNotMatter(p: PartialCopy, s: string)
    ensures TakeAll(p, Split(TrimLeft(s))) == TakeAll(p, Split(s))
  {
    if s != [] && IsSpace(s[0]) {
      LeftBlanksDoNotMatter(p, s[1..]);
      var r := Split(s[1..]);
      BlanksDoNotMatter(p, r[0], s[0]);
      assert Split(s)[1..] == r[1..];
    }
  }

  lemma {:induction false} RightBlanksDoNotMatter(p: PartialCopy, s: string)
    ensures TakeAll(p, Split(TrimRight(s))) == TakeAll(p, Split(s))
  {
    if s != [] && IsSpace(s[|s| - 1]) {
      var init, c := s[..|s| - 1], s[|s| - 1];
      RightBlanksDoNotMatter(p, init);
      assert s == init + [c];
      SplitAppend(init, c);
      var r := Split(init);
      var front, last := r[..|r| - 1], r[|r| - 1];
      assert r == front + [last];
      TakeAllConcat(p, front, [last]);
      TakeAllConcat(p, front, [last + [c]]);
      OneField(TakeAll(p, front), last);
      OneField(TakeAll(p, front), last + [c]);
      BlanksDoNotMatter(TakeAll(p, front), last, c);
    }
  }

  lemma OneField(p: PartialCopy, f: string)
    ensures TakeAll(p, [f]) == Take(p, f)
  {
    assert [f][1..] == [];
  }

  /** What a text within the cap says, apart from how it was written. */
  function Meaning(fields: seq<string>): PartialCopy {
    var p := TakeAll(BLANK, fields);
    p.(readable := KnownVerb(p.verb))
  }

  lemma {:induction false} RawIsAside(p: PartialCopy, raw: string, fields: seq<string>)
    ensures TakeAll(p.(raw := raw), fields) == TakeAll(p, fields).(raw := raw)
    decreases |fields|
  {
    if fields != [] { RawIsAside(Take(p, fields[0]), raw, fields[1..]); }
  }

  lemma TrimShortens(s: string)
    ensures |Trim(s)| <= |s|
  {
    TrimLeftShortens(s);
  }

  lemma {:induction false} TrimLeftShortens(s: string)
    ensures |TrimLeft(s)| <= |s|
  {
    if s != [] && IsSpace(s[0]) { TrimLeftShortens(s[1..]); }
  }

  lemma ParseIsMeaning(text: string)
    requires |text| <= MAX_RAW
    ensures Parse(text).(raw := "") == Meaning(Split(text))
  {
    TrimShortens(text);
    LeftBlanksDoNotMatter(BLANK, text);
    RightBlanksDoNotMatter(BLANK, TrimLeft(text));
    var t := Trim(text);
    RawIsAside(BLANK, t, Split(t));
    RawStays(BLANK, Split(text));
    if t == "" {
      OneField(BLANK, "");
    }
  }

  /** A field this build does not know, put in at any place, changes nothing but the raw text. */
  lemma UnknownFieldChangesNothing(pre: seq<string>, field: string, post: seq<string>)
    requires Unknown(field) && forall f | f in pre + [field] + post :: Without(f, ',')
    requires |Join(pre + [field] + post)| <= MAX_RAW && |Join(pre + post)| <= MAX_RAW
    ensures Parse(Join(pre + [field] + post)).(raw := "") == Parse(Join(pre + post)).(raw := "")
  {
    var with, bare := pre + [field] + post, pre + post;
    ParseIsMeaning(Join(with));
    ParseIsMeaning(Join(bare));
    SplitJoin(with);
    TakeAllConcat(BLANK, pre + [field], post);
    TakeAllConcat(BLANK, pre, [field]);
    OneField(TakeAll(BLANK, pre), field);
    TakeAllConcat(BLANK, pre, post);
    if bare != [] {
      forall f | f in bare ensures Without(f, ',') { assert f in with; }
      SplitJoin(bare);
    } else {
      OneField(BLANK, "");
    }
  }

  /** What is shown of the text, and when it reads as understood. */
  lemma ParsedIs(text: string)
    ensures var p, t := Parse(text), Trim(text);
            && p.raw == (if |t| > 512 then t[..512] else t)
            && (p.readable <==> p.verb in {"reinit", "force-clean", "full-sync", "restore"})
  {
    var capped := Capped(Trim(text));
    if capped != "" { RawStays(BLANK.(raw := capped), Split(capped)); }
  }
}
