/** The timeout length shown in the direct message: a millisecond span rounded
    to whole minutes and printed as days, hours and minutes, leaving out every
    component that is zero ("1d2h3m", "1h30m", "1d"). JavaScript's number
    semantics are written out on integers: `Math.round` rounds halves up,
    `Math.floor` of a quotient by a positive divisor is floor division, and
    `%` truncates toward zero. */
module Duration {
  import opened Wrappers
  import opened Text

  const MsPerMinute: nat := 60000
  const MinutesPerDay: nat := 1440
  const MinutesPerHour: nat := 60

  /** `Math.round(ms / 60000)`: the nearest whole minute, halves rounded up. */
  function RoundedMinutes(ms: int): (m: int)
    ensures m * MsPerMinute - MsPerMinute / 2 <= ms < m * MsPerMinute + MsPerMinute / 2
    ensures ms >= 0 ==> m >= 0
  {
    (ms + MsPerMinute / 2) / MsPerMinute
  }

  /** JavaScript's `a % b` for a positive divisor: the remainder takes the sign
      of the dividend and is smaller than the divisor in magnitude. */
  function JsRem(a: int, b: int): (r: int)
    requires b > 0
    ensures a == b * TruncDiv(a, b) + r
    ensures a >= 0 ==> 0 <= r < b
    ensures a < 0 ==> -b < r <= 0
  {
    if a >= 0 then a % b else -((-a) % b)
  }

  /** The quotient rounded toward zero that goes with `JsRem`. */
  function TruncDiv(a: int, b: int): int
    requires b > 0
  {
    if a >= 0 then a / b else -((-a) / b)
  }

  /** One entry of the `durationUnits` table: an amount and its suffix. */
  datatype Component = Component(amount: int, suffix: char)

  /** The `durationUnits` table: whole days, the hours left over from the
      days, the minutes left over from the hours. */
  function Components(minutes: int): (cs: seq<Component>)
    ensures |cs| == 3 && cs[0].suffix == 'd' && cs[1].suffix == 'h' && cs[2].suffix == 'm'
    ensures -24 <= cs[1].amount < 24 && -60 < cs[2].amount < 60
    ensures minutes >= 0 ==> cs[0].amount >= 0 && cs[1].amount >= 0 && cs[2].amount >= 0
    ensures minutes < 0 ==> cs[0].amount < 0 && cs[1].amount <= 0 && cs[2].amount <= 0
  {
    [ Component(minutes / MinutesPerDay, 'd'),
      Component(JsRem(minutes, MinutesPerDay) / MinutesPerHour, 'h'),
      Component(JsRem(minutes, MinutesPerHour), 'm') ]
  }

  /** `.filter((e) => e[0])`: keep the components whose amount is not zero. */
  function NonZero(cs: seq<Component>): (r: seq<Component>)
    ensures forall i :: 0 <= i < |r| ==> r[i].amount != 0 && r[i] in cs
    ensures forall c :: c in cs && c.amount != 0 ==> c in r
    ensures |r| <= |cs|
    ensures |cs| == 1 ==> r == if cs[0].amount != 0 then cs else []
  {
    if cs == [] then []
    else if cs[0].amount != 0 then [cs[0]] + NonZero(cs[1..])
    else NonZero(cs[1..])
  }

  /** Filtering keeps order: a concatenation filters part by part. */
  lemma {:induction false} NonZeroAppend(a: seq<Component>, b: seq<Component>)
    ensures NonZero(a + b) == NonZero(a) + NonZero(b)
    decreases |a|
  {
    if a == [] {
      assert a + b == b;
    } else {
      assert (a + b)[0] == a[0];
      assert (a + b)[1..] == a[1..] + b;
      NonZeroAppend(a[1..], b);
    }
  }

  /** `.flat().join("")`: each amount printed in decimal, then its suffix. */
  function Join(cs: seq<Component>): string {
    if cs == [] then "" else IntToString(cs[0].amount) + [cs[0].suffix] + Join(cs[1..])
  }

  /** One component joins to its amount in decimal followed by its suffix. */
  lemma JoinOne(c: Component)
    ensures Join([c]) == IntToString(c.amount) + [c.suffix]
  {
    assert [c][1..] == [];
  }

  /** Joining a concatenation is concatenating the joined parts. */
  lemma {:induction false} JoinAppend(a: seq<Component>, b: seq<Component>)
    ensures Join(a + b) == Join(a) + Join(b)
    decreases |a|
  {
    if a == [] {
      assert a + b == b;
    } else {
      assert (a + b)[0] == a[0];
      assert (a + b)[1..] == a[1..] + b;
      JoinAppend(a[1..], b);
    }
  }

  /** The formatted duration: for a non-negative minute count, the non-zero
      components in day, hour, minute order, each followed by its suffix. */
  function FormatDuration(minutes: int): (r: string)
    ensures minutes >= 0 ==>
      var cs := Components(minutes);
      r == Piece(cs[0].amount, 'd') + Piece(cs[1].amount, 'h') + Piece(cs[2].amount, 'm')
  {
    TableShape(minutes);
    Join(NonZero(Components(minutes)))
  }

  /** The text for one component when it is kept: nothing when it is zero. */
  function Piece(amount: nat, suffix: char): string {
    if amount == 0 then "" else NatToString(amount) + [suffix]
  }

  /** For a non-negative minute count the table is the usual day / hour /
      minute decomposition, and it rebuilds the count exactly. */
  lemma Decompose(minutes: nat)
    ensures var cs := Components(minutes);
      && cs[0].amount >= 0
      && 0 <= cs[1].amount < 24
      && 0 <= cs[2].amount < 60
      && cs[0].amount * MinutesPerDay + cs[1].amount * MinutesPerHour + cs[2].amount == minutes
  {
    var d, r := minutes / 1440, minutes % 1440;
    assert minutes == d * 1440 + r;
    var h, m := r / 60, r % 60;
    assert r == h * 60 + m;
    assert minutes == (d * 24 + h) * 60 + m;
    assert minutes % 60 == m;
  }

  /** The filtered, joined table of a non-negative count, piece by piece. */
  lemma TableShape(minutes: int)
    ensures minutes >= 0 ==>
      var cs := Components(minutes);
      Join(NonZero(cs)) == Piece(cs[0].amount, 'd') + Piece(cs[1].amount, 'h') + Piece(cs[2].amount, 'm')
  {
    if minutes >= 0 {
      var cs := Components(minutes);
      assert cs == [cs[0], cs[1], cs[2]];
      ThreeShape(cs[0], cs[1], cs[2]);
    }
  }

  lemma ThreeShape(c0: Component, c1: Component, c2: Component)
    requires c0.amount >= 0 && c1.amount >= 0 && c2.amount >= 0
    ensures Join(NonZero([c0, c1, c2]))
      == Piece(c0.amount, c0.suffix) + Piece(c1.amount, c1.suffix) + Piece(c2.amount, c2.suffix)
  {
    var p0, p1, p2 := Piece(c0.amount, c0.suffix), Piece(c1.amount, c1.suffix), Piece(c2.amount, c2.suffix);
    var t2: seq<Component> := [c2];
    var t1 := [c1] + t2;
    var t0 := [c0] + t1;
    assert t0 == [c0, c1, c2];
    assert t2 == [c2] + [];
    JoinNonZeroCons(c2, []);
    assert Join(NonZero(t2)) == p2 + "";
    JoinNonZeroCons(c1, t2);
    assert Join(NonZero(t1)) == p1 + p2;
    JoinNonZeroCons(c0, t1);
    assert Join(NonZero(t0)) == p0 + (p1 + p2);
  }

  /** Filtering then joining one more non-negative component in front adds
      its piece in front. */
  lemma JoinNonZeroCons(c: Component, cs: seq<Component>)
    requires c.amount >= 0
    ensures Join(NonZero([c] + cs)) == Piece(c.amount, c.suffix) + Join(NonZero(cs))
  {
    assert ([c] + cs)[1..] == cs;
    if c.amount != 0 {
      assert ([c] + NonZero(cs))[1..] == NonZero(cs);
    }
  }

  /** The suffixes and the number of minutes each one stands for. */
  function Weight(c: char): Option<nat> {
    if c == 'd' then Some(MinutesPerDay)
    else if c == 'h' then Some(MinutesPerHour)
    else if c == 'm' then Some(1)
    else None
  }

  /** Reads a formatted duration back: a sequence of decimal amounts, each
      followed by a suffix, summed as minutes. */
  function ParseDuration(s: string): Option<nat>
    decreases |s|
  {
    if s == [] then Some(0)
    else
      var k := DigitRun(s);
      if k == 0 || k == |s| then None
      else match Weight(s[k])
        case None => None
        case Some(w) =>
          match ParseDuration(s[k + 1..])
          case None => None
          case Some(rest) => Some(Value(s[..k]) * w + rest)
  }

  lemma ParsePiece(amount: nat, suffix: char, rest: string)
    requires Weight(suffix).Some?
    ensures ParseDuration(Piece(amount, suffix) + rest)
      == match ParseDuration(rest)
         case None => None
         case Some(v) => Some(amount * Weight(suffix).value + v)
  {
    if amount != 0 {
      var digits := NatToString(amount);
      var s := Piece(amount, suffix) + rest;
      assert s == digits + ([suffix] + rest);
      DigitRunOfDigitsThen(digits, [suffix] + rest);
      assert s[..|digits|] == digits;
      assert s[|digits|] == suffix;
      assert s[|digits| + 1..] == rest;
      ValueOfNatToString(amount);
    } else {
      assert Piece(amount, suffix) + rest == rest;
    }
  }

  /** Reading the three pieces back gives the weighted sum of their amounts. */
  lemma ParsePieces(d: nat, h: nat, m: nat)
    ensures ParseDuration(Piece(d, 'd') + Piece(h, 'h') + Piece(m, 'm'))
      == Some(d * MinutesPerDay + h * MinutesPerHour + m)
  {
    var pd, ph, pm := Piece(d, 'd'), Piece(h, 'h'), Piece(m, 'm');
    assert pd + ph + pm == pd + (ph + (pm + ""));
    ParsePiece(m, 'm', "");
    ParsePiece(h, 'h', pm + "");
    ParsePiece(d, 'd', ph + (pm + ""));
  }

  /** Reading the formatted text of a non-negative minute count gives back
      that count: no two counts are shown the same way. */
  lemma {:induction false} FormatRoundTrip(minutes: nat)
    ensures ParseDuration(FormatDuration(minutes)) == Some(minutes)
  {
    var cs := Components(minutes);
    Decompose(minutes);
    ParsePieces(cs[0].amount, cs[1].amount, cs[2].amount);
  }

  /** The text is empty exactly when a non-negative count is zero. */
  lemma FormatEmptyIffZero(minutes: nat)
    ensures FormatDuration(minutes) == "" <==> minutes == 0
  {
    FormatRoundTrip(minutes);
  }

  /** 90 minutes is "1h30m": the zero day count is left out. */
  lemma NinetyMinutes()
    ensures FormatDuration(90) == "1h30m"
  {
    assert NatToString(30) == "30";
  }

  /** 1440 minutes is "1d": the zero hour and minute counts are left out. */
  lemma OneDay()
    ensures FormatDuration(1440) == "1d"
  {
  }

  lemma Zero()
    ensures FormatDuration(0) == ""
  {
  }

  /** A negative span is not guarded against: day counts floor while the
      remainders truncate, so -90 minutes shows as "-1d-2h-30m". */
  lemma NegativeNinetyMinutes()
    ensures FormatDuration(-90) == "-1d-2h-30m"
  {
    var cs := Components(-90);
    assert cs == [Component(-1, 'd'), Component(-2, 'h'), Component(-30, 'm')];
    assert NatToString(30) == "30";
  }
}
