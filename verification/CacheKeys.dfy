/**
 Cache keys as strings: what can be read back from a printed key, when two keys print
 alike, and which keys a prefix pattern selects.
 */
module CacheKeys {

  const PREFIX := "recommendation:"

  datatype CacheKey = CacheKey(mood: string, timeOfDay: string, weather: string, segment: string, ruleVersion: int)

  // ----- Printing -----

  function DigitChar(d: nat): (c: char)
    requires d < 10
    ensures '0' <= c <= '9'
  {
    match d
    case 0 => '0' case 1 => '1' case 2 => '2' case 3 => '3' case 4 => '4'
    case 5 => '5' case 6 => '6' case 7 => '7' case 8 => '8' case _ => '9'
  }

  function Digits(n: nat): (s: string)
    ensures s != []
    ensures forall i :: 0 <= i < |s| ==> '0' <= s[i] <= '9'
  {
    if n < 10 then [DigitChar(n)] else Digits(n / 10) + [DigitChar(n % 10)]
  }

  /** The digit d is the d-th character after zero. */
  lemma DigitCode(d: nat)
    requires d < 10
    ensures DigitChar(d) as int == '0' as int + d
  {
    if d < 5 {
      assert d == 0 || d == 1 || d == 2 || d == 3 || d == 4;
    } else {
      assert d == 5 || d == 6 || d == 7 || d == 8 || d == 9;
    }
  }

  /** Only zero is printed with a zero in front. */
  lemma {:induction false} NoLeadingZero(n: nat)
    requires n > 0
    ensures Digits(n)[0] != '0'
  {
    if n < 10 {
      DigitCode(n);
    } else {
      NoLeadingZero(n / 10);
    }
  }

  /** The text as a number in base ten, by the codes of its characters. */
  function Base10(s: string): int {
    if s == [] then 0 else Base10(s[..|s| - 1]) * 10 + (s[|s| - 1] as int - '0' as int)
  }

  lemma {:induction false} DigitsInBase10(n: nat)
    ensures Base10(Digits(n)) == n
  {
    DigitCode(n % 10);
    if n < 10 {
      assert Digits(n)[..0] == [];
    } else {
      DigitsInBase10(n / 10);
      assert Digits(n)[..|Digits(n)| - 1] == Digits(n / 10);
    }
  }

  /** The version is printed in decimal: an optional minus sign, and digits without a
      leading zero that read as its absolute value in base ten. */
  lemma DecimalText(n: int)
    ensures n >= 0 ==> Base10(Decimal(n)) == n
    ensures n < 0 ==> Decimal(n)[0] == '-' && Base10(Decimal(n)[1..]) == -n
    ensures var digits := if n < 0 then Decimal(n)[1..] else Decimal(n);
      && (forall i :: 0 <= i < |digits| ==> '0' <= digits[i] <= '9')
      && (n != 0 ==> digits[0] != '0')
      && (n == 0 ==> digits == "0")
  {
    var m := if n < 0 then -n else n;
    DigitsInBase10(m);
    assert n < 0 ==> Decimal(n)[1..] == Digits(m);
    if m > 0 {
      NoLeadingZero(m);
    }
  }

  /** The %d format. */
  function Decimal(n: int): string {
    if n < 0 then "-" + Digits(-n) else Digits(n)
  }

  function Body(k: CacheKey): string {
    k.mood + ":" + k.timeOfDay + ":" + k.weather + ":" + k.segment
  }

  function KeyString(k: CacheKey): string {
    PREFIX + k.mood + ":" + k.timeOfDay + ":" + k.weather + ":" + k.segment + ":v" + Decimal(k.ruleVersion)
  }

  // ----- Reading the version back -----

  function DigitValue(c: char): nat {
    match c
    case '1' => 1 case '2' => 2 case '3' => 3 case '4' => 4 case '5' => 5
    case '6' => 6 case '7' => 7 case '8' => 8 case '9' => 9 case _ => 0
  }

  function ParseDigits(s: string): nat {
    if s == [] then 0 else ParseDigits(s[..|s| - 1]) * 10 + DigitValue(s[|s| - 1])
  }

  function ParseDecimal(s: string): int {
    if s != [] && s[0] == '-' then -(ParseDigits(s[1..]) as int) else ParseDigits(s)
  }

  function AfterLastColon(s: string): string {
    if s == [] || s[|s| - 1] == ':' then []
    else AfterLastColon(s[..|s| - 1]) + [s[|s| - 1]]
  }

  /** The number after the v that follows the last colon. */
  function ParseVersion(s: string): int {
    var tail := AfterLastColon(s);
    if tail == [] then 0 else ParseDecimal(tail[1..])
  }

  predicate ColonFree(s: string) {
    forall i :: 0 <= i < |s| ==> s[i] != ':'
  }

  lemma DigitBack(d: nat)
    requires d < 10
    ensures DigitValue(DigitChar(d)) == d
  {
  }

  lemma ParseNext(s: string, c: char)
    ensures ParseDigits(s + [c]) == ParseDigits(s) * 10 + DigitValue(c)
  {
    assert (s + [c])[..|s|] == s;
  }

  lemma {:induction false} DigitsRoundTrip(n: nat)
    ensures ParseDigits(Digits(n)) == n
  {
    if n < 10 {
      ParseNext([], DigitChar(n));
      assert [] + [DigitChar(n)] == Digits(n);
      DigitBack(n);
    } else {
      DigitsRoundTrip(n / 10);
      ParseNext(Digits(n / 10), DigitChar(n % 10));
      DigitBack(n % 10);
    }
  }

  lemma DecimalRoundTrip(n: int)
    ensures ParseDecimal(Decimal(n)) == n
    ensures ColonFree(Decimal(n))
  {
    var digits := Digits(if n < 0 then -n else n);
    DigitsRoundTrip(if n < 0 then -n else n);
    if n < 0 {
      assert Decimal(n) == ['-'] + digits;
      assert Decimal(n)[1..] == digits;
    } else {
      assert digits[0] != '-';
    }
  }

  lemma {:induction false} AfterLastColonOf(front: string, tail: string)
    requires ColonFree(tail)
    ensures AfterLastColon(front + ":" + tail) == tail
  {
    var s := front + ":" + tail;
    if tail != [] {
      var n := |tail| - 1;
      AfterLastColonOf(front, tail[..n]);
      assert s[..|s| - 1] == front + ":" + tail[..n];
      assert tail == tail[..n] + [tail[n]];
    }
  }

  lemma KeySplits(k: CacheKey)
    ensures KeyString(k) == (PREFIX + Body(k)) + ":" + ("v" + Decimal(k.ruleVersion))
  {
  }

  /** The version can be read back from every key, whatever its fields contain. */
  lemma VersionRoundTrip(k: CacheKey)
    ensures ParseVersion(KeyString(k)) == k.ruleVersion
  {
    var tail := "v" + Decimal(k.ruleVersion);
    DecimalRoundTrip(k.ruleVersion);
    KeySplits(k);
    AfterLastColonOf(PREFIX + Body(k), tail);
    assert tail[1..] == Decimal(k.ruleVersion);
  }

  // ----- Reading the fields back -----

  /** The parts of a text between its colons. */
  function Split(s: string): (parts: seq<string>)
    ensures parts != []
  {
    if s == [] then [[]]
    else
      var rest := Split(s[1..]);
      if s[0] == ':' then [[]] + rest else [[s[0]] + rest[0]] + rest[1..]
  }

  lemma {:induction false} SplitAtColon(a: string, b: string)
    ensures Split(a + ":" + b) == Split(a) + Split(b)
  {
    var s := a + ":" + b;
    if a == [] {
      assert s[1..] == b;
    } else {
      assert s[1..] == a[1..] + ":" + b;
      SplitAtColon(a[1..], b);
    }
  }

  lemma {:induction false} SplitOne(a: string)
    requires ColonFree(a)
    ensures Split(a) == [a]
  {
    if a != [] {
      SplitOne(a[1..]);
      assert [a[0]] + a[1..] == a;
    }
  }

  lemma BodyParts(k: CacheKey)
    requires ColonFree(k.mood) && ColonFree(k.timeOfDay) && ColonFree(k.weather) && ColonFree(k.segment)
    ensures Split(Body(k)) == [k.mood, k.timeOfDay, k.weather, k.segment]
  {
    SplitAtColon(k.mood + ":" + k.timeOfDay + ":" + k.weather, k.segment);
    SplitAtColon(k.mood + ":" + k.timeOfDay, k.weather);
    SplitAtColon(k.mood, k.timeOfDay);
    SplitOne(k.mood);
    SplitOne(k.timeOfDay);
    SplitOne(k.weather);
    SplitOne(k.segment);
  }

  lemma PrefixSplits(name: string, body: string)
    requires name == "recommendation"
    ensures Split(PREFIX + body) == [name] + Split(body)
  {
    SplitAtColon(name, body);
    SplitOne(name);
    assert PREFIX + body == name + ":" + body;
  }

  lemma VersionSplits(k: CacheKey)
    ensures Split(KeyString(k)) == Split(PREFIX + Body(k)) + ["v" + Decimal(k.ruleVersion)]
  {
    var front, version := PREFIX + Body(k), "v" + Decimal(k.ruleVersion);
    DecimalRoundTrip(k.ruleVersion);
    SplitOne(version);
    SplitAtColon(front, version);
    KeySplits(k);
  }

  /** A key without colons in its fields can be read back part by part: the fixed prefix,
      mood, time of day, weather, segment and version, in this order. */
  lemma FieldsRoundTrip(k: CacheKey)
    requires ColonFree(k.mood) && ColonFree(k.timeOfDay) && ColonFree(k.weather) && ColonFree(k.segment)
    ensures Split(KeyString(k)) ==
            ["recommendation", k.mood, k.timeOfDay, k.weather, k.segment, "v" + Decimal(k.ruleVersion)]
  {
    VersionSplits(k);
    PrefixSplits("recommendation", Body(k));
    BodyParts(k);
  }

  // ----- When two keys print alike -----

  /** When a text also splits further right, the longer front contains the colon. */
  lemma ColonInLonger(a: string, b: string, longer: string, rest: string)
    requires a + ":" + b == longer + rest && |a| < |longer|
    ensures longer[|a|] == ':'
  {
    assert (a + ":" + b)[|a|] == ':';
  }

  lemma CutFirst(a: string, b: string, a': string, b': string)
    requires ColonFree(a) && ColonFree(a')
    requires a + ":" + b == a' + ":" + b'
    ensures a == a' && b == b'
  {
    var s, s' := a + ":" + b, a' + ":" + b';
    if |a| < |a'| {
      ColonInLonger(a, b, a', ":" + b');
    } else if |a'| < |a| {
      ColonInLonger(a', b', a, ":" + b);
    }
    assert a == s[..|a|] && a' == s'[..|a'|];
    assert b == s[|a| + 1..] && b' == s'[|a'| + 1..];
  }

  lemma CutLast(a: string, b: string, a': string, b': string)
    requires ColonFree(b) && ColonFree(b')
    requires a + ":" + b == a' + ":" + b'
    ensures a == a' && b == b'
  {
    AfterLastColonOf(a, b);
    AfterLastColonOf(a', b');
    var s, s' := a + ":" + b, a' + ":" + b';
    assert a == s[..|s| - |b| - 1] && a' == s'[..|s'| - |b'| - 1];
  }

  /** Two keys print alike exactly when their versions are equal and their fields join
      to the same text. */
  lemma PrintAlike(k: CacheKey, k': CacheKey)
    ensures KeyString(k) == KeyString(k') <==> k.ruleVersion == k'.ruleVersion && Body(k) == Body(k')
  {
    KeySplits(k);
    KeySplits(k');
    if KeyString(k) == KeyString(k') {
      VersionRoundTrip(k);
      VersionRoundTrip(k');
      var s, tail := KeyString(k), ":" + ("v" + Decimal(k.ruleVersion));
      assert PREFIX + Body(k) == s[..|s| - |tail|] == PREFIX + Body(k');
      assert Body(k) == (PREFIX + Body(k))[|PREFIX|..];
      assert Body(k') == (PREFIX + Body(k'))[|PREFIX|..];
    }
  }

  function Field(k: CacheKey, i: nat): string
    requires i < 4
  {
    if i == 0 then k.mood else if i == 1 then k.timeOfDay else if i == 2 then k.weather else k.segment
  }

  /** All fields but field f are free of colons. */
  predicate ColonFreeBut(k: CacheKey, f: nat) {
    forall i :: 0 <= i < 4 && i != f ==> ColonFree(Field(k, i))
  }

  /** Printing is injective over keys in which one fixed field may contain anything and
      the other three are free of colons. */
  lemma KeysInjective(k: CacheKey, k': CacheKey, f: nat)
    requires f < 4 && ColonFreeBut(k, f) && ColonFreeBut(k', f)
    requires KeyString(k) == KeyString(k')
    ensures k == k'
  {
    PrintAlike(k, k');
    assert forall i :: 0 <= i < 4 && i != f ==> ColonFree(Field(k, i)) && ColonFree(Field(k', i));
    var m, t, w, s := Field(k, 0), Field(k, 1), Field(k, 2), Field(k, 3);
    var m', t', w', s' := Field(k', 0), Field(k', 1), Field(k', 2), Field(k', 3);
    if f == 3 {
      FromTheLeft(m, t, w + ":" + s, m', t', w' + ":" + s', Body(k), Body(k'));
      CutFirst(w, s, w', s');
    } else if f == 2 {
      FromTheLeft(m, t, w + ":" + s, m', t', w' + ":" + s', Body(k), Body(k'));
      CutLast(w, s, w', s');
    } else if f == 1 {
      FromTheRight(m + ":" + t, w, s, m' + ":" + t', w', s', Body(k), Body(k'));
      CutFirst(m, t, m', t');
    } else {
      FromTheRight(m + ":" + t, w, s, m' + ":" + t', w', s', Body(k), Body(k'));
      CutLast(m, t, m', t');
    }
  }

  lemma FromTheLeft(a: string, b: string, c: string, a': string, b': string, c': string, s: string, s': string)
    requires ColonFree(a) && ColonFree(a') && ColonFree(b) && ColonFree(b')
    requires s == a + ":" + b + ":" + c && s' == a' + ":" + b' + ":" + c' && s == s'
    ensures a == a' && b == b' && c == c'
  {
    assert s == a + ":" + (b + ":" + c) && s' == a' + ":" + (b' + ":" + c');
    CutFirst(a, b + ":" + c, a', b' + ":" + c');
    CutFirst(b, c, b', c');
  }

  lemma FromTheRight(a: string, b: string, c: string, a': string, b': string, c': string, s: string, s': string)
    requires ColonFree(b) && ColonFree(b') && ColonFree(c) && ColonFree(c')
    requires s == a + ":" + b + ":" + c && s' == a' + ":" + b' + ":" + c' && s == s'
    ensures a == a' && b == b' && c == c'
  {
    CutLast(a + ":" + b, c, a' + ":" + b', c');
    CutLast(a, b, a', b');
  }

  /** Every field is x, but field i is x:x. */
  function KeyWithColonIn(i: nat, version: int): CacheKey
    requires i < 4
  {
    CacheKey(
      if i == 0 then "x:x" else "x",
      if i == 1 then "x:x" else "x",
      if i == 2 then "x:x" else "x",
      if i == 3 then "x:x" else "x",
      version)
  }

  /** As soon as two fields may contain colons, whichever two, different keys collide. */
  lemma TwoColonFieldsCollide(i: nat, j: nat, version: int)
    requires i < j < 4
    ensures var k, k' := KeyWithColonIn(i, version), KeyWithColonIn(j, version);
      && ColonFreeBut(k, i) && ColonFreeBut(k', j)
      && k != k' && KeyString(k) == KeyString(k')
  {
    var k, k' := KeyWithColonIn(i, version), KeyWithColonIn(j, version);
    assert Field(k, i) != Field(k', i) by {
      assert |Field(k, i)| == 3 && |Field(k', i)| == 1;
    }
    FiveFields(i, version);
    FiveFields(j, version);
    PrintAlike(k, k');
  }

  lemma FiveFields(i: nat, version: int)
    requires i < 4
    ensures Body(KeyWithColonIn(i, version)) == "x:x:x:x:x"
    ensures ColonFreeBut(KeyWithColonIn(i, version), i)
  {
  }

  // ----- Prefix patterns -----

  function MatchesPattern(key: string, pattern: string): (r: bool)
    ensures r <==> pattern <= key
  {
    if pattern == "" then true
    else if |key| < |pattern| then false
    else key[..|pattern|] == pattern
  }

  /** The keys that InvalidateByPattern removes for this pattern. */
  predicate Selects(pattern: string, key: string) {
    pattern == "*" || MatchesPattern(key, PREFIX + pattern)
  }

  /** Every printed key has the prefix, so the empty pattern selects all of them. */
  lemma EmptyPatternSelectsAll(k: CacheKey)
    ensures Selects("", KeyString(k)) && Selects("*", KeyString(k))
  {
    assert PREFIX + "" == PREFIX;
  }

  function AfterMood(k: CacheKey): string {
    ":" + k.timeOfDay + ":" + k.weather + ":" + k.segment + ":v" + Decimal(k.ruleVersion)
  }

  lemma KeyFromMood(k: CacheKey)
    ensures KeyString(k) == PREFIX + (k.mood + AfterMood(k))
    ensures AfterMood(k) != [] && AfterMood(k)[0] == ':'
  {
  }

  /** A bare mood selects every mood that begins with it. */
  lemma BareMoodSelects(m: string, k: CacheKey)
    requires ColonFree(m) && m != "*"
    ensures Selects(m, KeyString(k)) <==> m <= k.mood
  {
    KeyFromMood(k);
    PrefixOfBoth(PREFIX, m, k.mood + AfterMood(k));
    LongerPrefix(m, k.mood, AfterMood(k));
  }

  /** A colon-free prefix of front + ":..." cannot reach beyond front. */
  lemma LongerPrefix(m: string, front: string, rest: string)
    requires ColonFree(m) && rest != [] && rest[0] == ':'
    ensures m <= front + rest <==> m <= front
  {
    assert (front + rest)[|front|] == ':';
    if m <= front + rest && |m| > |front| {
      assert false;
    }
  }

  /** A mood closed by a colon selects that mood and those that continue it after a colon. */
  lemma ClosedMoodSelects(m: string, k: CacheKey)
    requires ColonFree(m)
    ensures Selects(m + ":", KeyString(k)) <==> m == k.mood || m + ":" <= k.mood
    ensures ColonFree(k.mood) ==> (Selects(m + ":", KeyString(k)) <==> m == k.mood)
  {
    var p := m + ":";
    assert p[|m|] == ':';
    assert p != "*";
    KeyFromMood(k);
    PrefixOfBoth(PREFIX, p, k.mood + AfterMood(k));
    ClosedPrefix(m, k.mood, AfterMood(k));
    if p <= k.mood {
      assert k.mood[|m|] == ':';
    }
  }

  lemma ClosedPrefix(m: string, front: string, rest: string)
    requires ColonFree(m) && rest != [] && rest[0] == ':'
    ensures m + ":" <= front + rest <==> m == front || m + ":" <= front
  {
    var p := m + ":";
    LongerPrefix(m, front, rest);
    if p <= front + rest {
      assert m <= p;
      if |m| < |front| {
        assert p == (front + rest)[..|p|] == front[..|p|];
      }
    }
    if m == front {
      assert (front + rest)[..|p|] == p;
    }
  }

  lemma PrefixOfBoth(front: string, a: string, b: string)
    ensures front + a <= front + b <==> a <= b
  {
    if front + a <= front + b {
      assert a == (front + b)[..|front| + |a|][|front|..] == b[..|a|];
    }
  }
}
