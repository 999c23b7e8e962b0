/**
 * The seek command (src/commands/seek.ts): `parseTimeToSeconds` reads "s",
 * "m:ss" or "h:mm:ss", `formatTime` prints the target back in Korean units, and
 * the command checks the target against the current track before seeking.
 */
module SeekCommand {
  import opened Wrappers
  import opened Text
  import opened Tracks
  import opened Players
  import opened Guards

  /** `s.split(':')`. */
  function Fields(s: string): (r: seq<string>)
    ensures |r| >= 1
    ensures ':' !in s ==> r == [s]
  {
    if s == [] then [""]
    else if s[0] == ':' then [""] + Fields(s[1..])
    else
      var rest := Fields(s[1..]);
      assert ':' !in s ==> ':' !in s[1..] && [s[0]] + s[1..] == s by {
        if ':' !in s {
          assert forall i :: 0 <= i < |s[1..]| ==> s[1..][i] == s[i + 1];
        }
      }
      [[s[0]] + rest[0]] + rest[1..]
  }

  lemma {:induction false} FieldsAfterColon(x: string, y: string)
    requires ':' !in x
    ensures Fields(x + ":" + y) == [x] + Fields(y)
  {
    if x == [] {
      assert x + ":" + y == [':'] + y;
      assert (x + ":" + y)[1..] == y;
    } else {
      assert (x + ":" + y)[1..] == x[1..] + ":" + y;
      FieldsAfterColon(x[1..], y);
      assert [x[0]] + x[1..] == x;
    }
  }

  /** `\d{1,2}`. */
  predicate HourField(p: string) {
    1 <= |p| <= 2 && AllDigits(p)
  }

  /** `[0-5]?\d`. */
  predicate MinSecField(p: string) {
    (|p| == 1 && IsDigit(p[0])) || (|p| == 2 && '0' <= p[0] <= '5' && IsDigit(p[1]))
  }

  /** parseTimeToSeconds; None is `null`. */
  function ParseTime(time: string): (r: Option<nat>)
    ensures time != [] && AllDigits(time) ==> r == Some(DecimalValue(time))
    ensures r.Some? && ':' in time ==> r.value < 100 * 3600 + 60 * 60
  {
    if time != [] && AllDigits(time) then Some(DecimalValue(time))
    else ParseFields(Fields(time))
  }

  /** The "m:ss" and "h:mm:ss" patterns, on the colon-separated fields. */
  function ParseFields(f: seq<string>): (r: Option<nat>)
    ensures r.Some? ==> r.value < 100 * 3600 + 60 * 60
  {
    if |f| == 2 && HourField(f[0]) && MinSecField(f[1]) then
      HourBelow(f[0]);
      DecimalBelow(f[1]);
      Some(DecimalValue(f[0]) * 60 + DecimalValue(f[1]))
    else if |f| == 3 && HourField(f[0]) && MinSecField(f[1]) && MinSecField(f[2]) then
      HourBelow(f[0]);
      DecimalBelow(f[1]);
      DecimalBelow(f[2]);
      Some(DecimalValue(f[0]) * 3600 + DecimalValue(f[1]) * 60 + DecimalValue(f[2]))
    else None
  }

  lemma MinSecDigits(p: string)
    requires MinSecField(p)
    ensures AllDigits(p)
  {
  }

  lemma DecimalBelow(p: string)
    requires MinSecField(p)
    ensures DecimalValue(p) < 60
  {
    TwoDigitValue(p);
  }

  lemma TwoDigitValue(p: string)
    requires 1 <= |p| <= 2 && AllDigits(p)
    ensures |p| == 1 ==> DecimalValue(p) == p[0] as int - '0' as int
    ensures |p| == 2 ==> DecimalValue(p) == (p[0] as int - '0' as int) * 10 + (p[1] as int - '0' as int)
  {
    assert p[..|p| - 1][..0] == [] && p[..0] == [];
    if |p| == 2 {
      assert DecimalValue(p[..1]) == p[0] as int - '0' as int;
    }
  }

  lemma HourBelow(p: string)
    requires HourField(p)
    ensures DecimalValue(p) < 100
  {
    TwoDigitValue(p);
  }

  /** A number of seconds written out in digits reads back as itself. */
  lemma ParseSeconds(n: nat)
    ensures ParseTime(NatToString(n)) == Some(n)
  {
    DecimalValueOfNatToString(n);
  }

  lemma Pad2Field(n: nat)
    requires n < 60
    ensures MinSecField(Pad2(n)) && ':' !in Pad2(n)
  {
    var p := Pad2(n);
    if n >= 10 {
      assert NatToString(n) == NatToString(n / 10) + [DigitChar(n % 10)];
    }
  }

  /** A string with a colon in it is not all digits. */
  lemma ColonNotDigits(t: string, k: nat)
    requires k < |t| && t[k] == ':'
    ensures !AllDigits(t)
  {
    assert !IsDigit(t[k]);
  }

  /** The "m:ss" branch of parseTimeToSeconds. */
  lemma ParseTwoFields(t: string, a: string, b: string)
    requires !AllDigits(t) && Fields(t) == [a, b] && HourField(a) && MinSecField(b)
    ensures ParseTime(t).Some? && ParseTime(t).value == DecimalValue(a) * 60 + DecimalValue(b)
  {
    MinSecDigits(b);
    var f := [a, b];
    assert f[0] == a && f[1] == b;
    assert ParseTime(t) == ParseFields(f);
  }

  /** The "h:mm:ss" branch of parseTimeToSeconds. */
  lemma ParseThreeFields(t: string, a: string, b: string, c: string)
    requires !AllDigits(t) && Fields(t) == [a, b, c] && HourField(a) && MinSecField(b) && MinSecField(c)
    ensures ParseTime(t).Some? && ParseTime(t).value == DecimalValue(a) * 3600 + DecimalValue(b) * 60 + DecimalValue(c)
  {
    MinSecDigits(b);
    MinSecDigits(c);
    var f := [a, b, c];
    assert f[0] == a && f[1] == b && f[2] == c;
    assert ParseTime(t) == ParseFields(f);
  }

  /** The hour part: one or two digits. */
  lemma HourFieldOf(h: nat)
    requires h < 100
    ensures HourField(NatToString(h)) && ':' !in NatToString(h) && DecimalValue(NatToString(h)) == h
  {
    DecimalValueOfNatToString(h);
    if h >= 10 {
      NatToStringTwoDigits(h);
    }
  }

  /** "m:ss" reads as m minutes and ss seconds, for m of one or two digits. */
  lemma ParseMinutesSeconds(m: nat, s: nat)
    requires m < 100 && s < 60
    ensures var r := ParseTime(NatToString(m) + ":" + Pad2(s)); r.Some? && r.value == m * 60 + s
  {
    var a, b := NatToString(m), Pad2(s);
    var t := a + ":" + b;
    Pad2Field(s);
    HourFieldOf(m);
    ColonNotDigits(t, |a|);
    FieldsAfterColon(a, b);
    assert Fields(b) == [b];
    ParseTwoFields(t, a, b);
  }

  /** "h:mm:ss" reads as h hours, mm minutes and ss seconds, for h of one or two digits. */
  lemma ParseHoursMinutesSeconds(h: nat, m: nat, s: nat)
    requires h < 100 && m < 60 && s < 60
    ensures var r := ParseTime(NatToString(h) + ":" + Pad2(m) + ":" + Pad2(s)); r.Some? && r.value == h * 3600 + m * 60 + s
  {
    var a, b, c := NatToString(h), Pad2(m), Pad2(s);
    var t := a + ":" + b + ":" + c;
    Pad2Field(m);
    Pad2Field(s);
    HourFieldOf(h);
    ColonNotDigits(t, |a|);
    FieldsOfThree(a, b, c);
    ParseThreeFields(t, a, b, c);
  }

  lemma FieldsOfThree(a: string, b: string, c: string)
    requires ':' !in a && ':' !in b && ':' !in c
    ensures Fields(a + ":" + b + ":" + c) == [a, b, c]
  {
    assert a + ":" + b + ":" + c == a + ":" + (b + ":" + c);
    FieldsAfterColon(a, b + ":" + c);
    FieldsAfterColon(b, c);
  }

  /** Sixty in a field, three-digit hours and an empty string do not parse. */
  lemma RejectedForms()
    ensures ParseTime("1:60") == None
    ensures ParseTime("100:00") == None
    ensures ParseTime("") == None
  {
    RejectsSixty();
    RejectsThreeDigitHours();
  }

  lemma RejectsSixty()
    ensures ParseTime("1:60") == None
  {
    ColonNotDigits("1:60", 1);
    FieldsAfterColon("1", "60");
    assert Fields("60") == ["60"];
    assert "1" + ":" + "60" == "1:60";
    assert !MinSecField("60");
  }

  lemma RejectsThreeDigitHours()
    ensures ParseTime("100:00") == None
  {
    ColonNotDigits("100:00", 3);
    FieldsAfterColon("100", "00");
    assert Fields("00") == ["00"];
    assert "100" + ":" + "00" == "100:00";
    assert !HourField("100");
  }

  /** Hours, minutes and seconds. */
  datatype Clock = Clock(h: nat, m: nat, s: nat)

  /** `Math.floor(seconds / 3600)`, `Math.floor((seconds % 3600) / 60)` and `seconds % 60`. */
  function ClockOf(seconds: nat): (c: Clock)
    ensures c.h * 3600 + c.m * 60 + c.s == seconds
    ensures c.m < 60 && c.s < 60
  {
    Clock(seconds / 3600, (seconds % 3600) / 60, seconds % 60)
  }

  /** The pieces formatTime prints: hours and minutes when non-zero, seconds when non-zero or when nothing else is printed. */
  function Units(c: Clock): (w: seq<string>)
    ensures 1 <= |w| <= 3
    ensures c.h > 0 <==> w[0] == NatToString(c.h) + "시간"
    ensures (c.s > 0 || (c.h == 0 && c.m == 0)) <==> w[|w| - 1] == NatToString(c.s) + "초"
  {
    var hs := if c.h > 0 then [NatToString(c.h) + "시간"] else [];
    var ms := if c.m > 0 then [NatToString(c.m) + "분"] else [];
    var ss := if c.s > 0 || (c.h == 0 && c.m == 0) then [NatToString(c.s) + "초"] else [];
    var w := hs + ms + ss;
    assert c.h == 0 ==> w[0] != NatToString(c.h) + "시간" by {
      if c.h == 0 {
        assert w[0][|w[0]| - 1] != '간';
      }
    }
    assert !(c.s > 0 || (c.h == 0 && c.m == 0)) ==> w[|w| - 1] != NatToString(c.s) + "초" by {
      if !(c.s > 0 || (c.h == 0 && c.m == 0)) {
        assert w[|w| - 1][|w[|w| - 1]| - 1] != '초';
      }
    }
    w
  }

  /** The pieces joined by single spaces. */
  function JoinWords(w: seq<string>): string {
    if w == [] then "" else if |w| == 1 then w[0] else w[0] + " " + JoinWords(w[1..])
  }

  /** The three conditional appends of formatTime and the final trim. */
  function FormatClock(c: Clock): string {
    var result := (if c.h > 0 then NatToString(c.h) + "시간 " else "")
      + (if c.m > 0 then NatToString(c.m) + "분 " else "")
      + (if c.s > 0 || (c.h == 0 && c.m == 0) then NatToString(c.s) + "초" else "");
    Trim(result)
  }

  /** formatTime. */
  function FormatTime(seconds: nat): string {
    FormatClock(ClockOf(seconds))
  }

  lemma TrimKeeps(s: string)
    requires s != [] && !IsSpace(s[0]) && !IsSpace(s[|s| - 1])
    ensures Trim(s) == s
  {
  }

  lemma TrimDropsLastSpace(s: string)
    requires s != [] && !IsSpace(s[0]) && !IsSpace(s[|s| - 1])
    ensures Trim(s + " ") == s
  {
    var t := s + " ";
    assert TrimStart(t) == t;
    assert t[..|t| - 1] == s;
  }

  lemma {:induction false} JoinWordsEnds(w: seq<string>)
    requires w != [] && forall i :: 0 <= i < |w| ==> w[i] != [] && IsDigit(w[i][0]) && !IsSpace(w[i][|w[i]| - 1])
    ensures JoinWords(w) != [] && IsDigit(JoinWords(w)[0]) && !IsSpace(JoinWords(w)[|JoinWords(w)| - 1])
  {
    if |w| > 1 {
      JoinWordsEnds(w[1..]);
    }
  }

  predicate Piece(p: string) {
    p != [] && IsDigit(p[0]) && !IsSpace(p[|p| - 1])
  }

  /** Each piece followed by a space. */
  function Spaced(w: seq<string>): string {
    if w == [] then "" else w[0] + " " + Spaced(w[1..])
  }

  lemma {:induction false} JoinWordsLast(w: seq<string>, x: string)
    ensures JoinWords(w + [x]) == Spaced(w) + x
  {
    if w != [] {
      assert (w + [x])[1..] == w[1..] + [x];
      JoinWordsLast(w[1..], x);
    }
  }

  lemma {:induction false} SpacedIsJoinedSpace(w: seq<string>)
    requires w != []
    ensures Spaced(w) == JoinWords(w) + " "
  {
    if |w| > 1 {
      SpacedIsJoinedSpace(w[1..]);
    }
  }

  /** The hour and minute appends are the spaced hour and minute pieces. */
  lemma SpacedHoursMinutes(hp: string, mp: string, bh: bool, bm: bool)
    ensures Spaced((if bh then [hp] else []) + (if bm then [mp] else []))
      == (if bh then hp + " " else "") + (if bm then mp + " " else "")
  {
    var ws := (if bh then [hp] else []) + (if bm then [mp] else []);
    if bh && bm {
      assert ws == [hp, mp] && ws[1..] == [mp] && ws[1..][1..] == [];
      assert Spaced([mp]) == mp + " ";
    } else if bh {
      assert ws == [hp] && ws[1..] == [];
    } else if bm {
      assert ws == [mp] && ws[1..] == [];
    }
  }

  predicate AllPieces(w: seq<string>) {
    forall i :: 0 <= i < |w| ==> Piece(w[i])
  }

  lemma TrimSpacedLast(ws: seq<string>, x: string)
    requires AllPieces(ws + [x])
    ensures Trim(Spaced(ws) + x) == JoinWords(ws + [x])
  {
    JoinWordsEnds(ws + [x]);
    JoinWordsLast(ws, x);
    TrimKeeps(JoinWords(ws + [x]));
  }

  lemma TrimSpaced(ws: seq<string>)
    requires ws != [] && AllPieces(ws)
    ensures Trim(Spaced(ws)) == JoinWords(ws)
  {
    JoinWordsEnds(ws);
    SpacedIsJoinedSpace(ws);
    TrimDropsLastSpace(JoinWords(ws));
  }

  /** Trimming the appended pieces gives them joined by single spaces. */
  lemma TrimAppended(hp: string, mp: string, sp: string, bh: bool, bm: bool, bs: bool)
    requires Piece(hp) && Piece(mp) && Piece(sp) && (bh || bm || bs)
    ensures Trim((if bh then hp + " " else "") + (if bm then mp + " " else "") + (if bs then sp else ""))
      == JoinWords((if bh then [hp] else []) + (if bm then [mp] else []) + (if bs then [sp] else []))
  {
    var ws := (if bh then [hp] else []) + (if bm then [mp] else []);
    var front := (if bh then hp + " " else "") + (if bm then mp + " " else "");
    SpacedHoursMinutes(hp, mp, bh, bm);
    assert AllPieces(ws);
    if bs {
      assert AllPieces(ws + [sp]);
      TrimSpacedLast(ws, sp);
    } else {
      assert front + "" == front && ws + [] == ws;
      TrimSpaced(ws);
    }
  }

  /** What formatTime prints is exactly its pieces joined by single spaces. */
  lemma FormatClockIsJoinedUnits(c: Clock)
    ensures FormatClock(c) == JoinWords(Units(c))
  {
    var hp := NatToString(c.h) + "시간";
    var mp := NatToString(c.m) + "분";
    var sp := NatToString(c.s) + "초";
    assert Piece(hp) && Piece(mp) && Piece(sp) by {
      assert hp[|hp| - 1] == '간' && mp[|mp| - 1] == '분' && sp[|sp| - 1] == '초';
    }
    assert NatToString(c.h) + "시간 " == hp + " " && NatToString(c.m) + "분 " == mp + " ";
    TrimAppended(hp, mp, sp, c.h > 0, c.m > 0, c.s > 0 || (c.h == 0 && c.m == 0));
  }

  /** Zero seconds prints as "0초", not as an empty string. */
  lemma FormatTimeZero()
    ensures FormatTime(0) == "0초"
  {
    assert ClockOf(0) == Clock(0, 0, 0);
    FormatClockIsJoinedUnits(Clock(0, 0, 0));
    assert NatToString(0) == "0";
    assert NatToString(0) + "초" == "0초";
    assert Units(Clock(0, 0, 0)) == ["0초"];
  }

  /** Whole hours print the hours alone, without a trailing space. */
  lemma FormatTimeWholeHours()
    ensures FormatTime(7200) == "2시간"
  {
    assert ClockOf(7200) == Clock(2, 0, 0);
    FormatClockIsJoinedUnits(Clock(2, 0, 0));
    assert NatToString(2) == "2";
    assert NatToString(2) + "시간" == "2시간";
    assert Units(Clock(2, 0, 0)) == ["2시간"];
  }

  /** All three pieces, separated by single spaces. */
  lemma FormatTimeAllUnits()
    ensures FormatTime(3725) == "1시간 2분 5초"
  {
    ClockOfAllThree();
    FormatClockIsJoinedUnits(Clock(1, 2, 5));
    UnitsOfAllThree();
    JoinThree("1시간", "2분", "5초");
  }

  lemma ClockOfAllThree()
    ensures ClockOf(3725) == Clock(1, 2, 5)
  {
  }

  lemma UnitsOfAllThree()
    ensures Units(Clock(1, 2, 5)) == ["1시간", "2분", "5초"]
  {
    assert NatToString(1) == "1" && NatToString(2) == "2" && NatToString(5) == "5";
    assert NatToString(1) + "시간" == "1시간" && NatToString(2) + "분" == "2분" && NatToString(5) + "초" == "5초";
  }

  lemma JoinThree(x: string, y: string, z: string)
    ensures JoinWords([x, y, z]) == x + " " + y + " " + z
  {
    assert [x, y, z][1..] == [y, z] && [y, z][1..] == [z];
    assert JoinWords([y, z]) == y + " " + z;
    assert x + " " + (y + " " + z) == x + " " + y + " " + z;
  }

  datatype Reply =
    | NotAllowed
    | BadFormat
    | NegativeTime
    | NoCurrentTrack
    | BeyondTrack(duration: nat)
    | WhilePaused
    | OnStream
    | NotSeekable
    | Seeked(shown: string)

  /** The checks after parsing; Ok is the position in milliseconds to seek to. */
  function SeekTarget(seconds: nat, current: Option<Track>, paused: bool): (r: Result<nat, Reply>)
    ensures r.Ok? <==>
      (current.Some? && seconds * 1000 <= current.value.duration && !paused && !current.value.isStream && current.value.isSeekable)
    ensures r.Ok? ==> r.value == seconds * 1000
  {
    var position := seconds * 1000;
    if current.None? then Err(NoCurrentTrack)
    else if position > current.value.duration then Err(BeyondTrack(current.value.duration))
    else if paused then Err(WhilePaused)
    else if current.value.isStream then Err(OnStream)
    else if !current.value.isSeekable then Err(NotSeekable)
    else Ok(position)
  }

  /** Seeking to the very end of the track is allowed. */
  lemma SeekToEndAllowed(t: Track)
    requires t.duration % 1000 == 0 && !t.isStream && t.isSeekable
    ensures SeekTarget(t.duration / 1000, Some(t), false) == Ok(t.duration)
  {
  }

  /** Parsing and the checks together; Ok is the position to seek to. */
  function SeekPlan(time: string, current: Option<Track>, paused: bool): (r: Result<nat, Reply>)
    ensures ParseTime(time).None? ==> r == Err(BadFormat)
    ensures ParseTime(time).Some? ==> r == SeekTarget(ParseTime(time).value, current, paused)
    ensures r != Err(NegativeTime)
  {
    match ParseTime(time)
    case None => Err(BadFormat)
    case Some(seconds) => SeekTarget(seconds, current, paused)
  }

  /** The seek command; `time` is the text the user gave. */
  method Execute(m: Manager, guildId: string, memberChannel: Option<string>, time: string) returns (reply: Reply)
    requires m.Valid()
    modifies m.players.Values`position
    ensures m.players == old(m.players)
    ensures forall g :: g in m.players && g != guildId ==> unchanged(m.players[g])
    ensures !(InVoice(memberChannel) && old(SameVoice(m.players, guildId, memberChannel) && Playing(m.players, guildId)))
      ==> reply == NotAllowed
    ensures reply != NotAllowed ==>
      (guildId in m.players
       && var plan := SeekPlan(time, old(m.players[guildId].queue.current), old(m.players[guildId].paused));
       (plan.Err? ==> reply == plan.error)
       && (plan.Ok? ==> m.players[guildId].position == plan.value && reply == Seeked(FormatTime(ParseTime(time).value))))
    ensures InVoice(memberChannel) && old(SameVoice(m.players, guildId, memberChannel) && Playing(m.players, guildId)) ==>
      guildId in m.players
      && reply == match SeekPlan(time, old(m.players[guildId].queue.current), old(m.players[guildId].paused))
                  case Err(e) => e
                  case Ok(_) => Seeked(FormatTime(ParseTime(time).value))
    ensures !reply.Seeked? ==> forall p :: p in m.players.Values ==> unchanged(p)
  {
    if !InVoice(memberChannel) || !SameVoice(m.players, guildId, memberChannel) || !Playing(m.players, guildId) {
      return NotAllowed;
    }
    var p := m.players[guildId];
    var plan := SeekPlan(time, p.queue.current, p.paused);
    if plan.Err? {
      return plan.error;
    }
    p.Seek(plan.value);
    return Seeked(FormatTime(ParseTime(time).value));
  }
}
