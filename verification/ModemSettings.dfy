/** The modem settings a call is made with, over the whole history of a job. */
module ModemSettings {
  import opened Decimal
  import opened Sending
  import opened Retries
  import Q = QueueFormat

  /** The threshold is configured, and so many answered calls reach it. */
  predicate AtLeast(setting: string, count: int) {
    Atoi(setting).ok && 0 < Atoi(setting).value <= count
  }

  /** A text that is no number for Atoi, or one out of range, configures no threshold. */
  lemma ThresholdExactly(setting: string, tottries: int)
    requires IsInt(tottries)
    ensures Reached(setting, tottries) <==> AtLeast(setting, tottries)
  {
    hide Atoi;
  }

  lemma SettingsOfFile(ps: seq<Q.Param>, settings: Settings)
    ensures var flags, tottries := FlagsOf(ps, settings), Q.GetInt(ps, "tottries").value;
            && (flags.disableV17 <==>
                  || (Q.GetInt(ps, "desiredbr").ok && Q.GetInt(ps, "desiredbr").value < 5)
                  || AtLeast(settings.disableV17AfterRetry, tottries))
            && (flags.useECM <==>
                  && !(Q.GetInt(ps, "desiredec").ok && Q.GetInt(ps, "desiredec").value == 0)
                  && !AtLeast(settings.disableECMAfterRetry, tottries))
  {
    hide Atoi;
    hide Q.GetString;
    hide Reached;
    hide AtLeast;
    ThresholdExactly(settings.disableV17AfterRetry, Q.GetInt(ps, "tottries").value);
    ThresholdExactly(settings.disableECMAfterRetry, Q.GetInt(ps, "tottries").value);
  }

  /** The settings of the next call after any number of tries, in terms of the file that the job began with
      and of the counts: V.17 is off exactly if the job wishes for less than 14400 baud, or the negotiations
      counted so far reach the V.17 threshold; ECM is on exactly if the job does not wish it off and they do
      not reach the ECM threshold. Neither depends on the other's threshold. */
  lemma SettingsAfterHistory(text: string, tries: seq<Try>, settings: Settings)
    requires Readable(text) && HarmlessAll(text, tries)
    ensures var flags := FlagsOf(ParamsOf(AfterAll(text, tries)), settings);
            var count := WrapInt(Counter(text, "tottries") + NegotiationsIn(text, tries));
            var br, ec := Q.GetInt(ParamsOf(text), "desiredbr"), Q.GetInt(ParamsOf(text), "desiredec");
            && (flags.disableV17 <==> (br.ok && br.value < 5) || AtLeast(settings.disableV17AfterRetry, count))
            && (flags.useECM <==> !(ec.ok && ec.value == 0) && !AtLeast(settings.disableECMAfterRetry, count))
  {
    hide Readable;
    hide HarmlessAll;
    hide ParamsOf;
    hide AfterAll;
    hide NegotiationsIn;
    hide FlagsOf;
    hide AtLeast;
    hide WrapInt;
    hide JobId;
    hide Q.GetAll;
    hide Q.GetString;
    hide Atoi;
    HistoryCounts(text, tries);
    JobIsKept(text, tries);
    SettingsOfFile(ParamsOf(AfterAll(text, tries)), settings);
  }

  /** What the wishes alone give, with no threshold reached: V.17 is off for rates below 5, ECM for 0 only,
      and a wish that is absent, like one that is no number, changes nothing. */
  lemma WishesAlone(ps: seq<Q.Param>, settings: Settings, br: int, ec: int)
    requires IsInt(br) && IsInt(ec)
    requires !AtLeast(settings.disableV17AfterRetry, Q.GetInt(ps, "tottries").value)
    requires !AtLeast(settings.disableECMAfterRetry, Q.GetInt(ps, "tottries").value)
    ensures Q.GetString(ps, "desiredbr") == Itoa(br) ==> (FlagsOf(ps, settings).disableV17 <==> br < 5)
    ensures Q.GetString(ps, "desiredec") == Itoa(ec) ==> (FlagsOf(ps, settings).useECM <==> ec != 0)
    ensures Q.GetString(ps, "desiredbr") == "" ==> !FlagsOf(ps, settings).disableV17
    ensures Q.GetString(ps, "desiredec") == "" ==> FlagsOf(ps, settings).useECM
  {
    hide FlagsOf;
    hide AtLeast;
    hide Atoi;
    hide Itoa;
    hide Q.GetString;
    SettingsOfFile(ps, settings);
    AtoiItoa(br);
    AtoiItoa(ec);
  }
}
