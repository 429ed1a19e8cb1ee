/** GTFS stop times as text (ParseGTFSTime in internal/servicetime/servicetime.go). */
module StopTimes {
  import opened Options
  import opened Numerals

  /** Go's int arithmetic. */
  function Int64(v: int): int { (v + 0x8000_0000_0000_0000) % 0x1_0000_0000_0000_0000 - 0x8000_0000_0000_0000 }

  /** strings.Split at colons. */
  function Split(s: string): (parts: seq<string>)
    ensures parts != []
  {
    if s == "" then [""]
    else if s[0] == ':' then [""] + Split(s[1..])
    else
      var rest := Split(s[1..]);
      [[s[0]] + rest[0]] + rest[1..]
  }

  /** The text with the colons back between its parts. */
  function Join(parts: seq<string>): string
    requires parts != []
  {
    if |parts| == 1 then parts[0] else parts[0] + ":" + Join(parts[1..])
  }

  lemma {:induction false} SplitJoins(s: string)
    ensures Join(Split(s)) == s
  {
    if s != "" {
      SplitJoins(s[1..]);
    }
  }

  lemma {:induction false} SplitFirst(p: string, rest: string)
    requires ':' !in p
    ensures Split(p + rest) == [p + Split(rest)[0]] + Split(rest)[1..]
  {
    var parts := Split(rest);
    if p == "" {
      assert p + rest == rest && p + parts[0] == parts[0];
      assert parts == [parts[0]] + parts[1..];
    } else {
      var s := p + rest;
      assert p[0] in p && s[1..] == p[1..] + rest;
      assert forall c | c in p[1..] :: c in p;
      SplitFirst(p[1..], rest);
      assert [p[0]] + (p[1..] + parts[0]) == p + parts[0];
      assert ([p[1..] + parts[0]] + parts[1..])[1..] == parts[1..];
    }
  }

  lemma {:induction false} JoinSplits(parts: seq<string>)
    requires parts != [] && forall p | p in parts :: ':' !in p
    ensures Split(Join(parts)) == parts
  {
    if |parts| == 1 {
      SplitFirst(parts[0], "");
      assert parts[0] + "" == parts[0] && Split("") == [""];
    } else {
      JoinSplits(parts[1..]);
      var rest := ":" + Join(parts[1..]);
      assert rest[1..] == Join(parts[1..]);
      SplitFirst(parts[0], rest);
      assert parts[0] + ":" + Join(parts[1..]) == parts[0] + rest;
      assert Split(rest) == [""] + parts[1..];
      assert parts[0] + "" == parts[0] && ([""] + parts[1..])[1..] == parts[1..];
      assert parts == [parts[0]] + parts[1..];
    }
  }

  /** The only way a text is three numbers is as the three parts it splits into. */
  lemma {:induction false} SplitsInThree(text: string, h: string, m: string, s: string)
    requires Number(h) && Number(m) && Number(s)
    ensures text == Text(h, m, s) <==> Split(text) == [h, m, s]
  {
    JoinThree([h, m, s]);
    SplitJoins(text);
    JoinSplits([h, m, s]);
  }

  lemma {:induction false} JoinThree(parts: seq<string>)
    requires |parts| == 3
    ensures Join(parts) == Text(parts[0], parts[1], parts[2])
  {
    assert Join(parts[1..]) == parts[1] + ":" + Join(parts[2..]);
    assert Text(parts[0], parts[1], parts[2]) == parts[0] + ":" + (parts[1] + ":" + parts[2]);
  }

  /** The fields of a time of day that may run past midnight. */
  predicate Clock(h: string, m: string, s: string) {
    && Number(h) && Number(m) && Number(s)
    && Value(h) <= MAX_INT && Value(m) <= 59 && Value(s) <= 59
  }

  function Text(h: string, m: string, s: string): string { h + ":" + m + ":" + s }

  /** The text splits into the fields of a time. */
  predicate IsTime(text: string) {
    var parts := Split(text);
    |parts| == 3 && Clock(parts[0], parts[1], parts[2])
  }

  function SecondsIn(h: string, m: string, s: string): int { Int64(Value(h) * 3600 + Value(m) * 60 + Value(s)) }

  /** The seconds a well-formed text stands for, hours past midnight included. */
  method ParseGTFSTime(text: string) returns (seconds: Result<int, string>)
    ensures seconds.Ok? <==> IsTime(text)
    ensures seconds.Ok? ==> seconds.value == SecondsIn(Split(text)[0], Split(text)[1], Split(text)[2])
  {
    var parts := Split(text);
    if |parts| != 3 {
      return Err("want HH:MM:SS");
    }
    var n := new int[3];
    for i := 0 to 3
      invariant forall j | 0 <= j < i :: Number(parts[j]) && n[j] == Value(parts[j]) <= MAX_INT
    {
      if !Number(parts[i]) {
        return Err("field is not a number");
      }
      if Value(parts[i]) > MAX_INT {
        return Err("value out of range");
      }
      n[i] := Value(parts[i]);
    }
    if n[1] > 59 || n[2] > 59 {
      return Err("minutes and seconds must be below 60");
    }
    return Ok(Int64(n[0] * 3600 + n[1] * 60 + n[2]));
  }

  /** Whatever has the form of a time is one, padded or not, and nothing else is. */
  lemma {:induction false} TimesAre(text: string)
    ensures IsTime(text) <==> exists h, m, s :: Clock(h, m, s) && text == Text(h, m, s)
  {
    var parts := Split(text);
    if IsTime(text) {
      assert parts == [parts[0], parts[1], parts[2]];
      SplitsInThree(text, parts[0], parts[1], parts[2]);
    }
    forall h, m, s | Clock(h, m, s) && text == Text(h, m, s)
      ensures IsTime(text)
    {
      SplitsInThree(text, h, m, s);
    }
  }

  /** A time as GTFS writes it. */
  function Written(seconds: nat): string {
    Text(Decimal(seconds / 3600, 2), Decimal(seconds / 60 % 60, 2), Decimal(seconds % 60, 2))
  }

  /** What is written is read back, whatever the hour. */
  lemma {:induction false} WrittenIsRead(seconds: nat)
    requires seconds <= MAX_INT
    ensures var text := Written(seconds);
            IsTime(text) && SecondsIn(Split(text)[0], Split(text)[1], Split(text)[2]) == seconds
  {
    var h, m, s := Decimal(seconds / 3600, 2), Decimal(seconds / 60 % 60, 2), Decimal(seconds % 60, 2);
    SplitsInThree(Written(seconds), h, m, s);
    TakenApart(seconds);
  }

  lemma {:induction false} TakenApart(seconds: nat)
    ensures seconds / 3600 * 3600 + seconds / 60 % 60 * 60 + seconds % 60 == seconds
  {
    assert seconds / 3600 == seconds / 60 / 60;
  }

  /** A time accepted has one reading: its hours, minutes and seconds are those its count of seconds has,
      if Go's int holds that. */
  lemma {:induction false} FieldsAreRead(h: string, m: string, s: string)
    requires Clock(h, m, s) && Value(h) * 3600 + 3600 <= MAX_INT
    ensures var secs := SecondsIn(h, m, s);
            0 <= secs && secs / 3600 == Value(h) && secs / 60 % 60 == Value(m) && secs % 60 == Value(s)
  {
    ValueIsNat(h);
    ValueIsNat(m);
    ValueIsNat(s);
    FitsInt(Value(h) * 3600 + Value(m) * 60 + Value(s));
    PutTogether(Value(h), Value(m), Value(s));
  }

  lemma {:induction false} ValueIsNat(p: string)
    requires forall c | c in p :: '0' <= c <= '9'
    ensures 0 <= Value(p)
  {
    if p != "" {
      var init := p[..|p| - 1];
      assert p[|p| - 1] in p;
      forall i | 0 <= i < |init| ensures '0' <= init[i] <= '9' {
        assert p[i] in p;
      }
      ValueIsNat(init);
    }
  }

  lemma {:induction false} FitsInt(v: int)
    requires 0 <= v <= MAX_INT
    ensures Int64(v) == v
  {}

  lemma {:induction false} PutTogether(h: nat, m: nat, s: nat)
    requires m <= 59 && s <= 59
    ensures var secs := h * 3600 + m * 60 + s; secs / 3600 == h && secs / 60 % 60 == m && secs % 60 == s
  {
    var secs := h * 3600 + m * 60 + s;
    assert secs / 60 == h * 60 + m;
  }
}
