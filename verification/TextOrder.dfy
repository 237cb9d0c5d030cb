/**
 The order of texts by their bytes, and of timestamps in the textual form the stores keep and compare
 (`to_rfc3339` in UTC): zero-padded fields, and no, three, six or nine digits of a second's fraction.
 */
module TextOrder {
  import opened Hex

  predicate Before(a: Text, b: Text) {
    if b == [] then false
    else if a == [] then true
    else a[0] < b[0] || (a[0] == b[0] && Before(a[1..], b[1..]))
  }

  lemma {:induction false} BeforeIsOrder(a: Text, b: Text, d: Text)
    ensures !Before(a, a)
    ensures Before(a, b) ==> !Before(b, a)
    ensures Before(a, b) && Before(b, d) ==> Before(a, d)
    ensures !Before(a, b) && !Before(b, a) ==> a == b
    decreases |a| + |b| + |d|
  {
    if a != [] {
      BeforeIsOrder(a[1..], if b == [] then [] else b[1..], if d == [] then [] else d[1..]);
      if b != [] && a[0] == b[0] && a[1..] == b[1..] {
        assert a == [a[0]] + a[1..] && b == [b[0]] + b[1..];
      }
    }
  }

  lemma FirstDecides(x: byte, y: byte, u: Text, v: Text)
    ensures Before([x] + u, [y] + v) <==> x < y || (x == y && Before(u, v))
  {
    assert ([x] + u)[1..] == u && ([y] + v)[1..] == v;
  }

  // ---------------------------------------------------------------------------
  // Timestamps
  // ---------------------------------------------------------------------------

  function Power10(width: nat): (p: nat)
    ensures p > 0
  {
    if width == 0 then 1 else 10 * Power10(width - 1)
  }

  /** `n` in `width` decimal digits, the low ones if it has more. */
  function Pad(width: nat, n: nat): (t: Text)
    ensures |t| == width
    ensures forall i | 0 <= i < |t| :: 48 <= t[i] <= 57
  {
    if width == 0 then [] else Pad(width - 1, n / 10) + [48 + n % 10]
  }

  /** Equal widths: the numbers decide, and on a tie what follows them. */
  lemma {:induction false} PadDecides(width: nat, m: nat, n: nat, u: Text, v: Text)
    requires m < Power10(width) && n < Power10(width)
    ensures Before(Pad(width, m) + u, Pad(width, n) + v) <==> m < n || (m == n && Before(u, v))
  {
    if width == 0 {
      assert [] + u == u && [] + v == v;
    } else {
      var x, y := [48 + m % 10], [48 + n % 10];
      assert Pad(width, m) + u == Pad(width - 1, m / 10) + (x + u);
      assert Pad(width, n) + v == Pad(width - 1, n / 10) + (y + v);
      PadDecides(width - 1, m / 10, n / 10, x + u, y + v);
      FirstDecides(48 + m % 10, 48 + n % 10, u, v);
    }
  }

  datatype Field = Field(width: nat, value: nat, after: byte)

  function Written(fields: seq<Field>, tail: Text): Text {
    if fields == [] then tail
    else Pad(fields[0].width, fields[0].value) + ([fields[0].after] + Written(fields[1..], tail))
  }

  predicate SameForm(f: seq<Field>, g: seq<Field>) {
    && |f| == |g|
    && forall i | 0 <= i < |f| ::
         && f[i].width == g[i].width && f[i].after == g[i].after
         && f[i].value < Power10(f[i].width) && g[i].value < Power10(f[i].width)
  }

  /** Field by field, the first that differs. */
  predicate Earlier(f: seq<Field>, g: seq<Field>)
    requires |f| == |g|
  {
    f != [] && (f[0].value < g[0].value || (f[0].value == g[0].value && Earlier(f[1..], g[1..])))
  }

  lemma {:induction false} FieldsDecide(f: seq<Field>, g: seq<Field>, u: Text, v: Text)
    requires SameForm(f, g)
    ensures Before(Written(f, u), Written(g, v)) <==> Earlier(f, g) || (f == g && Before(u, v))
  {
    if f != [] {
      var restF, restG := Written(f[1..], u), Written(g[1..], v);
      PadDecides(f[0].width, f[0].value, g[0].value, [f[0].after] + restF, [g[0].after] + restG);
      FirstDecides(f[0].after, g[0].after, restF, restG);
      FieldsDecide(f[1..], g[1..], u, v);
      assert f == [f[0]] + f[1..] && g == [g[0]] + g[1..];
    }
  }

  /** A moment in UTC, in its calendar fields; `milli`, `micro` and `nano` are three digits each. */
  datatype Stamp = Stamp(year: nat, month: nat, day: nat, hour: nat, minute: nat, second: nat,
                         milli: nat, micro: nat, nano: nat)
  {
    predicate Valid() {
      && year <= 9999 && month < 100 && day < 100 && hour < 100 && minute < 100 && second < 100
      && milli < 1000 && micro < 1000 && nano < 1000
    }

    function DateAndTime(): seq<Field> {
      [Field(4, year, 45), Field(2, month, 45), Field(2, day, 84), Field(2, hour, 58), Field(2, minute, 58)]
    }

  }

  function Zone(): Text {
    [43, 48, 48, 58, 48, 48]
  }

  /** The fraction in groups of three digits, without the zero groups at its end; none without its dot. */
  function Groups(s: Stamp): Text {
    if s.nano > 0 then [46] + (Pad(3, s.milli) + (Pad(3, s.micro) + (Pad(3, s.nano) + Zone())))
    else if s.micro > 0 then [46] + (Pad(3, s.milli) + (Pad(3, s.micro) + Zone()))
    else if s.milli > 0 then [46] + (Pad(3, s.milli) + Zone())
    else Zone()
  }

  function Rfc3339(s: Stamp): Text {
    Written(s.DateAndTime(), Pad(2, s.second) + Groups(s))
  }

  /** The text: year-month-dayThour:minute:second, the fraction, and the zone of UTC. */
  lemma Rfc3339Is(s: Stamp)
    ensures Rfc3339(s)
            == Pad(4, s.year) + (Ascii("-") + (Pad(2, s.month) + (Ascii("-") + (Pad(2, s.day)
               + (Ascii("T") + (Pad(2, s.hour) + (Ascii(":") + (Pad(2, s.minute)
               + (Ascii(":") + (Pad(2, s.second) + Groups(s)))))))))))
    ensures s.milli == s.micro == s.nano == 0 ==> Groups(s) == Ascii("+00:00")
  {
    var f, tail := s.DateAndTime(), Pad(2, s.second) + Groups(s);
    WrittenOne(f[4], [], tail);
    WrittenOne(f[3], [f[4]], tail);
    WrittenOne(f[2], [f[3], f[4]], tail);
    WrittenOne(f[1], [f[2], f[3], f[4]], tail);
    WrittenOne(f[0], [f[1], f[2], f[3], f[4]], tail);
    assert f == [f[0]] + [f[1], f[2], f[3], f[4]];
    assert [f[4]] + [] == [f[4]] && [f[3]] + [f[4]] == [f[3], f[4]] && [f[2]] + [f[3], f[4]] == [f[2], f[3], f[4]];
    assert [f[1]] + [f[2], f[3], f[4]] == [f[1], f[2], f[3], f[4]];
    Punctuation();
  }

  lemma WrittenOne(field: Field, rest: seq<Field>, tail: Text)
    ensures Written([field] + rest, tail) == Pad(field.width, field.value) + ([field.after] + Written(rest, tail))
  {
    assert ([field] + rest)[1..] == rest;
  }

  lemma Punctuation()
    ensures Ascii("-") == [45] && Ascii("T") == [84] && Ascii(":") == [58] && Ascii("+00:00") == Zone()
  {
  }

  /** One moment before another, by calendar fields and then by fraction. */
  predicate Sooner(s: Stamp, t: Stamp) {
    var f, g := s.DateAndTime(), t.DateAndTime();
    || Earlier(f, g)
    || (f == g && (s.second < t.second || (s.second == t.second && SoonerFraction(s, t))))
  }

  predicate SoonerFraction(s: Stamp, t: Stamp) {
    || s.milli < t.milli
    || (s.milli == t.milli && (s.micro < t.micro || (s.micro == t.micro && s.nano < t.nano)))
  }

  /** The zone's sign sorts before the dot and before every digit, so a shorter fraction that is a prefix
      sorts first, as it should. */
  lemma ZoneBeforeDigits(t: Text)
    requires t != [] && t[0] >= 46
    ensures Before(Zone(), t) && !Before(t, Zone()) && !Before(Zone(), Zone())
  {
    BeforeIsOrder(Zone(), Zone(), Zone());
  }

  lemma GroupsDecide(s: Stamp, t: Stamp)
    requires s.Valid() && t.Valid()
    ensures Before(Groups(s), Groups(t)) <==> SoonerFraction(s, t)
  {
    assert Power10(1) == 10 && Power10(2) == 100 && Power10(3) == 1000;
    var restS, restT := AfterMilli(s), AfterMilli(t);
    AfterMilliDecides(s, t);
    PadDecides(3, s.milli, t.milli, restS, restT);
    FirstDecides(46, 46, Pad(3, s.milli) + restS, Pad(3, t.milli) + restT);
    ZoneBeforeDigits([46] + (Pad(3, s.milli) + restS));
    ZoneBeforeDigits([46] + (Pad(3, t.milli) + restT));
  }

  function AfterMilli(s: Stamp): Text {
    if s.nano > 0 then Pad(3, s.micro) + AfterMicro(s) else if s.micro > 0 then Pad(3, s.micro) + Zone() else Zone()
  }

  function AfterMicro(s: Stamp): Text {
    if s.nano > 0 then Pad(3, s.nano) + Zone() else Zone()
  }

  lemma AfterMicroDecides(s: Stamp, t: Stamp)
    requires s.Valid() && t.Valid()
    ensures Before(AfterMicro(s), AfterMicro(t)) <==> s.nano < t.nano
  {
    assert Power10(1) == 10 && Power10(2) == 100 && Power10(3) == 1000;
    PadDecides(3, s.nano, t.nano, Zone(), Zone());
    ZoneBeforeDigits(Pad(3, s.nano) + Zone());
    ZoneBeforeDigits(Pad(3, t.nano) + Zone());
  }

  lemma AfterMilliDecides(s: Stamp, t: Stamp)
    requires s.Valid() && t.Valid()
    ensures Before(AfterMilli(s), AfterMilli(t)) <==> s.micro < t.micro || (s.micro == t.micro && s.nano < t.nano)
  {
    assert Power10(1) == 10 && Power10(2) == 100 && Power10(3) == 1000;
    AfterMicroDecides(s, t);
    PadDecides(3, s.micro, t.micro, AfterMicro(s), AfterMicro(t));
    ZoneBeforeDigits(Pad(3, s.micro) + AfterMicro(s));
    ZoneBeforeDigits(Pad(3, t.micro) + AfterMicro(t));
  }

  /** Comparing the stored texts is comparing the moments, up to the year 9999. */
  lemma TextOrderIsTimeOrder(s: Stamp, t: Stamp)
    requires s.Valid() && t.Valid()
    ensures Before(Rfc3339(s), Rfc3339(t)) <==> Sooner(s, t)
  {
    assert Power10(1) == 10 && Power10(2) == 100 && Power10(3) == 1000 && Power10(4) == 10000;
    GroupsDecide(s, t);
    PadDecides(2, s.second, t.second, Groups(s), Groups(t));
    FieldsDecide(s.DateAndTime(), t.DateAndTime(), Pad(2, s.second) + Groups(s), Pad(2, t.second) + Groups(t));
  }

  /** Past it the order breaks: a longer year is written with a sign, which sorts before every digit, whatever
      follows it. */
  lemma LongYearsSortFirst(s: Stamp, rest: Text)
    ensures Before([43] + rest, Rfc3339(s)) && !Before(Rfc3339(s), [43] + rest)
  {
    assert Rfc3339(s)[0] == Pad(4, s.year)[0];
  }
}
