/** The transfer log: durations, signalling parameters and records. */
module Xferlog {
  import opened Wrappers
  import opened Text
  import opened Decimal
  import Fax

  // ---- Durations ----

  const NANOSECONDS := 1_000_000_000

  /** hh:mm:ss of a duration in nanoseconds. */
  function FormatDuration(d: nat): string {
    var s := d / NANOSECONDS;
    var hours := s / (60 * 60);
    var minutes := s / 60 - 60 * hours;
    PadTo(2, hours) + ":" + PadTo(2, minutes) + ":" + PadTo(2, s % 60)
  }

  datatype Clock = Clock(hours: nat, minutes: nat, seconds: nat)

  /** Reads three numbers between colons, the last two of them in two digits. */
  function ReadDuration(text: string): Option<Clock> {
    var parts := Split(text, ':');
    if |parts| == 3 && AllDigits(parts[0]) && AllDigits(parts[1]) && AllDigits(parts[2])
       && |parts[0]| >= 2 && |parts[1]| == 2 && |parts[2]| == 2 then
      Some(Clock(Value(parts[0], 10), Value(parts[1], 10), Value(parts[2], 10)))
    else None
  }

  lemma DigitsHaveNoColon(s: string)
    requires AllDigits(s)
    ensures ':' !in s
  {
  }

  /** The text shows the whole seconds of the duration, in proper hours, minutes and seconds. */
  predicate ShowsDuration(text: string, d: nat) {
    var r := ReadDuration(text);
    && r.Some? && r.value.hours * 3600 + r.value.minutes * 60 + r.value.seconds == d / NANOSECONDS
    && r.value.minutes < 60 && r.value.seconds < 60
  }

  lemma TwoDigits(n: nat)
    requires n < 60
    ensures |PadTo(2, n)| == 2
  {
    UtoaLength(n, 2, 100);
  }

  /** A printed duration reads back as its whole seconds. */
  lemma DurationRoundTrip(d: nat)
    ensures ShowsDuration(FormatDuration(d), d)
  {
    hide PadTo;
    hide Split;
    hide Value;
    var s := d / NANOSECONDS;
    var h, m, sec := s / 3600, s / 60 - 60 * (s / 3600), s % 60;
    var a, b, c := PadTo(2, h), PadTo(2, m), PadTo(2, sec);
    PadValue(2, h);
    PadValue(2, m);
    PadValue(2, sec);
    TwoDigits(m);
    TwoDigits(sec);
    DigitsHaveNoColon(a);
    DigitsHaveNoColon(b);
    DigitsHaveNoColon(c);
    SplitStep(a, ':', b + [':'] + c);
    SplitStep(b, ':', c);
    SplitStep(c, ':', "");
    assert a + [':'] + (b + [':'] + c) == FormatDuration(d);
    assert Split(FormatDuration(d), ':') == [a, b, c];
  }

  // ---- When durations make sense ----

  ghost predicate ClockMovesOn(trace: seq<Fax.Event>) {
    forall i, j | 0 <= i < j < |trace| :: trace[i].now <= trace[j].now
  }

  lemma LatestTime(trace: seq<Fax.Event>, p: Fax.Event -> bool, k: nat, t: Option<int>)
    requires Fax.IsLatest(trace, p, Fax.TimeOf(), None, t) && k < |trace| && p(trace[k])
    ensures exists i | k <= i < |trace| :: p(trace[i]) && t == Some(trace[i].now)
  {
  }

  /** On a call that became active and then hung up, by a clock that does not go back, the logged
      duration runs from the start to the hangup and is not negative. */
  lemma DurationIsSound(trace: seq<Fax.Event>, k: nat)
    requires ClockMovesOn(trace) && k + 1 < |trace|
    requires Fax.IsActive(trace[k]) && Fax.IsHangup(trace[|trace| - 1])
    ensures var f := Fax.Fold(trace);
            f.startTs.Some? && f.endTs == Some(trace[|trace| - 1].now) && f.startTs.value <= f.endTs.value
  {
    hide Fax.Fold;
    hide Fax.CountsMatch;
    hide Fax.FlagsMatch;
    hide Fax.ValuesMatch;
    hide Fax.OutcomeMatches;
    hide Fax.IsLatest;
    Fax.FoldSummarises(trace);
    assert Fax.Hangups()(trace[|trace| - 1]) && Fax.Actives()(trace[k]);
    LatestTime(trace, Fax.Hangups(), |trace| - 1, Fax.Fold(trace).endTs);
    LatestTime(trace, Fax.Actives(), k, Fax.Fold(trace).startTs);
  }

  // ---- Signalling parameters ----

  /** The rate class: 0 up to 2400 baud, one more for each further step up to 14400. */
  function RateClass(baudrate: nat): bv64 {
    if baudrate > 12000 then 5 else if baudrate > 9600 then 4 else if baudrate > 7200 then 3
    else if baudrate > 4800 then 2 else if baudrate > 2400 then 1 else 0
  }

  function EncodeParams(baudrate: nat, ecm: bool): bv64 {
    var ec: bv64 := if ecm then 1 else 0;
    (RateClass(baudrate) << 3) | (ec << 16)
  }

  const CLASSES: seq<bv64> := [0, 1, 2, 3, 4, 5]

  /** The class counts the full steps of 2400 baud below the rate, up to five. */
  lemma ClassCountsSteps(baudrate: nat)
    ensures var steps := if baudrate == 0 then 0 else (baudrate - 1) / 2400;
            RateClass(baudrate) == CLASSES[if steps < 5 then steps else 5]
  {
  }

  /** The two fields can be read back separately. */
  lemma ParamsDecode(baudrate: nat, ecm: bool)
    ensures (EncodeParams(baudrate, ecm) >> 3) & 7 == RateClass(baudrate)
    ensures (EncodeParams(baudrate, ecm) >> 16) == if ecm then 1 else 0
  {
  }

  /** With the same ECM flag a higher rate never gives a smaller code, and a code tells the class. */
  lemma ParamsAreMonotone(low: nat, high: nat, ecm: bool)
    requires low <= high
    ensures EncodeParams(low, ecm) <= EncodeParams(high, ecm)
    ensures EncodeParams(low, ecm) == EncodeParams(high, ecm) <==> RateClass(low) == RateClass(high)
  {
  }

  // ---- Records ----

  /** A record with its times already in text. */
  datatype Record = Record(
    ts: string, commid: string, modem: string, jobid: nat, jobtag: string, filename: string, sender: string,
    destnum: string, remoteId: string, params: nat, pages: nat, jobtime: nat, conntime: nat, reason: string,
    cidname: string, cidnum: string, owner: string, dcs: string)

  function Quoted(s: string): string {
    "\"" + s + "\""
  }

  function TransmissionFields(r: Record): seq<string> {
    [r.ts, "SEND", r.commid, r.modem, Utoa(r.jobid), Quoted(r.jobtag), r.sender, Quoted(r.destnum),
     Quoted(r.remoteId), Utoa(r.params), Utoa(r.pages), FormatDuration(r.jobtime), FormatDuration(r.conntime),
     Quoted(r.reason), Quoted(""), Quoted(""), Quoted(""), Quoted(r.owner), Quoted(r.dcs)]
  }

  function ReceptionFields(r: Record): seq<string> {
    [r.ts, "RECV", r.commid, r.modem, r.filename, Quoted(""), "fax", Quoted(r.destnum),
     Quoted(r.remoteId), Utoa(r.params), Utoa(r.pages), FormatDuration(r.jobtime), FormatDuration(r.conntime),
     Quoted(r.reason), Quoted(Quoted(r.cidname)), Quoted(Quoted(r.cidnum)), Quoted(""), Quoted(""), Quoted(r.dcs)]
  }

  predicate Plain(s: string) {
    '\t' !in s
  }

  predicate PlainRecord(r: Record) {
    && Plain(r.ts) && Plain(r.commid) && Plain(r.modem) && Plain(r.jobtag) && Plain(r.filename) && Plain(r.sender)
    && Plain(r.destnum) && Plain(r.remoteId) && Plain(r.reason) && Plain(r.cidname) && Plain(r.cidnum)
    && Plain(r.owner) && Plain(r.dcs)
  }

  lemma PlainNumber(n: nat)
    ensures Plain(Utoa(n))
  {
    UtoaValue(n);
  }

  lemma PlainDuration(d: nat)
    ensures Plain(FormatDuration(d))
  {
    hide PadTo;
  }

  lemma PlainQuoted(s: string)
    ensures Plain(Quoted(s)) <==> Plain(s)
  {
    assert Quoted(s)[1..|s| + 1] == s;
    if '\t' in s {
      var i :| 0 <= i < |s| && s[i] == '\t';
      assert Quoted(s)[i + 1] == '\t';
    }
  }

  lemma FieldsArePlain(r: Record)
    requires PlainRecord(r)
    ensures forall p | p in TransmissionFields(r) :: Plain(p)
    ensures forall p | p in ReceptionFields(r) :: Plain(p)
  {
    hide Utoa;
    hide FormatDuration;
    hide Quoted;
    hide Plain;
    PlainNumber(r.jobid);
    PlainNumber(r.params);
    PlainNumber(r.pages);
    PlainDuration(r.jobtime);
    PlainDuration(r.conntime);
    PlainTexts(r);
    PlainConstants();
  }

  lemma PlainConstants()
    ensures Plain("SEND") && Plain("RECV") && Plain("fax") && Plain(Quoted(""))
  {
  }

  lemma PlainTexts(r: Record)
    requires PlainRecord(r)
    ensures Plain(Quoted(r.jobtag)) && Plain(Quoted(r.destnum)) && Plain(Quoted(r.remoteId)) && Plain(Quoted(r.reason))
    ensures Plain(Quoted(r.owner)) && Plain(Quoted(r.dcs))
    ensures Plain(Quoted(Quoted(r.cidname))) && Plain(Quoted(Quoted(r.cidnum)))
  {
    hide Plain;
    hide Quoted;
    PlainQuoted(r.jobtag);
    PlainQuoted(r.destnum);
    PlainQuoted(r.remoteId);
    PlainQuoted(r.reason);
    PlainQuoted(r.owner);
    PlainQuoted(r.dcs);
    PlainQuoted(r.cidname);
    PlainQuoted(Quoted(r.cidname));
    PlainQuoted(r.cidnum);
    PlainQuoted(Quoted(r.cidnum));
  }

  lemma SplitFields(fields: seq<string>)
    requires fields != [] && forall p | p in fields :: Plain(p)
    ensures Split(Join(fields, '\t'), '\t') == fields
  {
    SplitJoin(fields, '\t');
  }

  /** What stands between double quotes. */
  function Unquoted(s: string): Option<string> {
    if |s| >= 2 && s[0] == '"' && s[|s| - 1] == '"' then Some(s[1..|s| - 1]) else None
  }

  lemma UnquotedQuoted(s: string)
    ensures Unquoted(Quoted(s)) == Some(s)
  {
    assert Quoted(s)[1..|s| + 1] == s;
  }

  predicate ShowsNumber(text: string, n: nat) {
    AllDigits(text) && Value(text, 10) == n
  }

  /** The fields that both kinds of records have in the same places. */
  predicate ShowsCall(f: seq<string>, r: Record)
    requires |f| == 19
  {
    && f[0] == r.ts && f[2] == r.commid && f[3] == r.modem
    && Unquoted(f[7]) == Some(r.destnum) && Unquoted(f[8]) == Some(r.remoteId)
    && ShowsNumber(f[9], r.params) && ShowsNumber(f[10], r.pages)
    && ShowsDuration(f[11], r.jobtime) && ShowsDuration(f[12], r.conntime)
    && Unquoted(f[13]) == Some(r.reason) && Unquoted(f[18]) == Some(r.dcs)
  }

  lemma FieldsShowCall(r: Record)
    ensures ShowsCall(TransmissionFields(r), r) && ShowsCall(ReceptionFields(r), r)
  {
    hide Unquoted;
    hide Quoted;
    hide ShowsNumber;
    hide ShowsDuration;
    hide Utoa;
    hide FormatDuration;
    UnquotedQuoted(r.destnum);
    UnquotedQuoted(r.remoteId);
    UnquotedQuoted(r.reason);
    UnquotedQuoted(r.dcs);
    NumberShows(r.params);
    NumberShows(r.pages);
    DurationRoundTrip(r.jobtime);
    DurationRoundTrip(r.conntime);
  }

  lemma NumberShows(n: nat)
    ensures ShowsNumber(Utoa(n), n)
  {
    UtoaValue(n);
  }

  /** A transmission record, read back from its line: nineteen fields, each value in its place. */
  lemma TransmissionReadsBack(r: Record)
    requires PlainRecord(r)
    ensures var f := Split(Join(TransmissionFields(r), '\t'), '\t');
            && |f| == 19 && ShowsCall(f, r) && f[1] == "SEND" && ShowsNumber(f[4], r.jobid)
            && Unquoted(f[5]) == Some(r.jobtag) && f[6] == r.sender
            && Unquoted(f[14]) == Unquoted(f[15]) == Unquoted(f[16]) == Some("")
            && Unquoted(f[17]) == Some(r.owner)
  {
    hide PlainRecord;
    hide Split;
    hide Join;
    hide ShowsCall;
    hide ShowsNumber;
    hide Unquoted;
    hide Quoted;
    hide Utoa;
    hide FormatDuration;
    FieldsArePlain(r);
    SplitFields(TransmissionFields(r));
    FieldsShowCall(r);
    NumberShows(r.jobid);
    UnquotedQuoted(r.jobtag);
    UnquotedQuoted("");
    UnquotedQuoted(r.owner);
  }

  /** A reception record, read back in the same way; the caller's name and number are quoted twice. */
  lemma ReceptionReadsBack(r: Record)
    requires PlainRecord(r)
    ensures var f := Split(Join(ReceptionFields(r), '\t'), '\t');
            && |f| == 19 && ShowsCall(f, r) && f[1] == "RECV" && f[4] == r.filename
            && Unquoted(f[5]) == Some("") && f[6] == "fax"
            && Unquoted(f[14]) == Some("\"" + r.cidname + "\"") && Unquoted(f[15]) == Some("\"" + r.cidnum + "\"")
            && Unquoted(f[16]) == Unquoted(f[17]) == Some("")
  {
    hide PlainRecord;
    hide Split;
    hide Join;
    hide ShowsCall;
    hide Unquoted;
    hide Utoa;
    hide FormatDuration;
    FieldsArePlain(r);
    SplitFields(ReceptionFields(r));
    FieldsShowCall(r);
    UnquotedQuoted("");
    UnquotedQuoted(Quoted(r.cidname));
    UnquotedQuoted(Quoted(r.cidnum));
  }
}
