/** The language of accepted schedule texts, told without splitting and look-up tables, and
    the proof that the builder accepts exactly this language and gives it this meaning. */
module Grammar {
  import opened Wrappers
  import opened Text
  import opened Errors
  import opened RunTimes
  import opened Plans

  datatype Period = Count(n: int) | Span(text: string)

  datatype Qualifier =
    | Unqualified
    | Each(unit: Unit)
    | OnThe(weekday: Weekday)
    | OnThese(days: seq<int>)
    | AtMidday

  datatype Schedule =
    | Immediately
    | Periodic(every: Period, qualifier: Qualifier)
    | CronTable(expr: string)

  // --- The language -------------------------------------------------------------------

  predicate SpaceFree(s: string) {
    ' ' !in s
  }

  /** What may follow the last word that counts: anything after a space is ignored. */
  predicate Ignored(rest: string) {
    rest == "" || rest[0] == ' '
  }

  predicate IsEachUnit(u: Unit) {
    u == Milliseconds || u == Seconds || u == Minutes || u == Hours || u == Unit.Days || u == Weeks
  }

  function UnitWord(u: Unit): string
    requires IsEachUnit(u)
  {
    match u
    case Milliseconds => "millisecond"
    case Seconds => "second"
    case Minutes => "minute"
    case Hours => "hour"
    case Days => "day"
    case Weeks => "week"
  }

  function UnitPlural(u: Unit): string
    requires IsEachUnit(u)
  {
    match u
    case Milliseconds => "milliseconds"
    case Seconds => "seconds"
    case Minutes => "minutes"
    case Hours => "hours"
    case Days => "days"
    case Weeks => "weeks"
  }

  function DayWord(d: Weekday): string {
    match d
    case Sunday => "sunday"
    case Monday => "monday"
    case Tuesday => "tuesday"
    case Wednesday => "wednesday"
    case Thursday => "thursday"
    case Friday => "friday"
    case Saturday => "saturday"
  }

  ghost predicate WritesPeriod(lib: Lib, word: string, e: Period) {
    SpaceFree(word) &&
    match e
    case Count(n) => WritesInteger(word, n) && n > 0
    case Span(text) => word == text && WritesNoInteger(word) && lib.duration(word).Success?
  }

  ghost predicate WritesDays(word: string, days: seq<int>) {
    exists pieces: seq<string> ::
      |pieces| == |days| && pieces != [] && word == Join(pieces, ',') &&
      forall i | 0 <= i < |days| :: ',' !in pieces[i] && WritesInteger(pieces[i], days[i])
  }

  /** The word that names a qualifier; day lists have their days as a second word. */
  predicate Names(word: string, q: Qualifier) {
    match q
    case Unqualified => false
    case Each(u) => IsEachUnit(u) && (Spells(word, UnitWord(u)) || Spells(word, UnitPlural(u)))
    case OnThe(d) => Spells(word, DayWord(d))
    case OnThese(_) => Spells(word, "monthdays")
    case AtMidday => Spells(word, "midday")
  }

  predicate IsWordTail(tail: string, q: Qualifier, name: string, rest: string) {
    tail == " " + (name + rest) && Names(name, q) && Ignored(rest)
  }

  ghost predicate IsDaysTail(tail: string, days: seq<int>, name: string, list: string, rest: string) {
    tail == " " + (name + " " + (list + rest)) && Names(name, OnThese(days)) && Ignored(rest) &&
    SpaceFree(list) && WritesDays(list, days) && MonthDaysOk([], days)
  }

  ghost predicate WritesQualifier(tail: string, q: Qualifier) {
    match q
    case Unqualified => tail == ""
    case OnThese(days) => exists name, list, rest :: IsDaysTail(tail, days, name, list, rest)
    case _ => exists name, rest :: IsWordTail(tail, q, name, rest)
  }

  /** A span can only be given a time of day. */
  predicate Compatible(e: Period, q: Qualifier) {
    e.Span? ==> q.Unqualified? || q.AtMidday?
  }

  ghost predicate WritesPeriodic(lib: Lib, text: string, e: Period, q: Qualifier,
                                 keyword: string, word: string, tail: string) {
    text == keyword + " " + word + tail && Spells(keyword, "every") &&
    WritesPeriod(lib, word, e) && WritesQualifier(tail, q)
  }

  predicate WritesCron(text: string, expr: string, keyword: string, rest: string) {
    text == keyword + " " + expr + rest && Spells(keyword, "cron") && Ignored(rest)
  }

  predicate StartsWith(s: string, prefix: string) {
    |prefix| <= |s| && s[..|prefix|] == prefix
  }

  /** The cron library takes the expression, in its own time zone or else in UTC. */
  predicate IsCron(lib: Lib, expr: string) {
    if StartsWith(expr, "TZ=") || StartsWith(expr, "CRON_TZ=") then lib.cron(expr, true).None?
    else lib.cron("CRON_TZ=UTC " + expr, true).None?
  }

  lemma IsCronIff(lib: Lib, expr: string)
    ensures IsCron(lib, expr) <==> lib.cron(WithLocation(expr), true).None?
  {
    assert "CRON_TZ=" + UTC + " " + expr == "CRON_TZ=UTC " + expr;
  }

  /** `text` is a way to write `v`. */
  ghost predicate Derives(lib: Lib, text: string, v: Schedule) {
    match v
    case Immediately => text == "" || Spells(text, "now")
    case Periodic(e, q) =>
      Compatible(e, q) &&
      exists keyword, word, tail :: WritesPeriodic(lib, text, e, q, keyword, word, tail)
    case CronTable(expr) =>
      SpaceFree(expr) && IsCron(lib, expr) &&
      exists keyword, rest :: WritesCron(text, expr, keyword, rest)
  }

  const NOON: int := 12 * 3600 * SECOND

  function MeaningOfPeriod(lib: Lib, e: Period): Plan {
    match e
    case Count(n) => FRESH.(interval := n)
    case Span(text) =>
      FRESH.(duration := if lib.duration(text).Success? then lib.duration(text).value else 0,
             unit := Duration)
  }

  /** The plan a schedule stands for; the instants are the clock when it is read. */
  function Meaning(lib: Lib, v: Schedule, first: Instant, second: Instant): Plan {
    match v
    case Immediately =>
      FRESH.(unit := Once, startAt := Some(first), immediately := true, runAt := [second.time])
    case CronTable(_) => FRESH.(unit := Crontab)
    case Periodic(e, q) =>
      var p := MeaningOfPeriod(lib, e);
      (match q
       case Unqualified => p
       case Each(u) => p.(unit := u)
       case OnThe(d) => p.(unit := Weeks, weekdays := [d])
       case OnThese(days) => p.(unit := Unit.Months, monthDays := days)
       case AtMidday => p.(runAt := [NOON]))
  }

  // --- Reading a text back to the schedule it writes ----------------------------------

  function ReadPeriod(lib: Lib, word: string): Option<Period> {
    match Atoi(word)
    case Some(n) => if n > 0 then Some(Count(n)) else None
    case None => if lib.duration(word).Success? then Some(Span(word)) else None
  }

  function QualifierOf(c: Call): Option<Qualifier> {
    match c
    case In(u) => Some(Each(u))
    case On(d) => Some(OnThe(d))
    case AtTexts(_) => Some(AtMidday)
    case _ => None
  }

  function ReadQualifier(tokens: seq<string>): Option<Qualifier>
    requires |tokens| >= 2
  {
    if |tokens| == 2 then Some(Unqualified)
    else if Lower(tokens[2]) == "monthdays" then
      if |tokens| < 4 then None
      else match ParseDays(tokens[3])
        case None => None
        case Some(days) => if MonthDaysOk([], days) then Some(OnThese(days)) else None
    else match Lookup(Lower(tokens[2]))
      case None => None
      case Some(c) => QualifierOf(c)
  }

  function Read(lib: Lib, text: string): Option<Schedule> {
    if text == "" || Lower(text) == "now" then Some(Immediately)
    else
      var tokens := Split(text, ' ');
      if |tokens| < 2 then None
      else if Lower(tokens[0]) == "every" then
        match (ReadPeriod(lib, tokens[1]), ReadQualifier(tokens))
        case (Some(e), Some(q)) => if Compatible(e, q) then Some(Periodic(e, q)) else None
        case _ => None
      else if Lower(tokens[0]) == "cron" && lib.cron(WithLocation(tokens[1]), true).None? then
        Some(CronTable(tokens[1]))
      else None
  }

  // --- The builder accepts what can be read, with its meaning -------------------------

  lemma NoonIsATime()
    ensures Split("12:00", ';') == ["12:00"]
    ensures ParseTime("12:00") == Some(NOON)
  {
    SplitOfWhole("12:00", ';');
    TwoDigitsDenote(12);
    TwoDigitsDenote(0);
    SplitOfPrefixed("12", ':', "00");
    SplitOfWhole("00", ':');
    assert "12" + [':'] + "00" == "12:00";
    assert TwoDigits(12) == "12" && TwoDigits(0) == "00";
  }

  lemma MiddayCall(lib: Lib, p: Plan)
    requires p.runAt == []
    ensures Do(lib, p, Call.AtTexts("12:00")) == p.(runAt := [NOON])
  {
    NoonIsATime();
    var pieces := ["12:00"];
    assert pieces[1..] == [];
    assert TimesBeforeBad(pieces) == [NOON];
    assert InsertAll([], [NOON]) == InsertAll([NOON], []);
  }

  lemma LookupKinds(word: string)
    ensures match Lookup(word)
            case None => true
            case Some(c) => (c.In? && IsEachUnit(c.unit)) || c.On? || c == Call.AtTexts("12:00")
  {
  }

  predicate GoodPeriod(lib: Lib, e: Period) {
    match e
    case Count(n) => n > 0
    case Span(text) => lib.duration(text).Success?
  }

  /** One builder call after a good period: it leaves a schedulable plan exactly when the
      period and the qualifier go together. */
  predicate Agrees(lib: Lib, e: Period, q: Qualifier, p: Plan, first: Instant, second: Instant) {
    if Compatible(e, q) then Schedulable(p) && p == Meaning(lib, Periodic(e, q), first, second)
    else !Schedulable(p)
  }

  lemma UnitAgrees(lib: Lib, e: Period, u: Unit, first: Instant, second: Instant)
    requires GoodPeriod(lib, e) && IsEachUnit(u)
    ensures Agrees(lib, e, Each(u), Do(lib, MeaningOfPeriod(lib, e), In(u)), first, second)
  {
  }

  lemma WeekdayAgrees(lib: Lib, e: Period, d: Weekday, first: Instant, second: Instant)
    requires GoodPeriod(lib, e)
    ensures Agrees(lib, e, OnThe(d), Do(lib, MeaningOfPeriod(lib, e), On(d)), first, second)
  {
  }

  lemma MiddayAgrees(lib: Lib, e: Period, first: Instant, second: Instant)
    requires GoodPeriod(lib, e)
    ensures Agrees(lib, e, AtMidday, Do(lib, MeaningOfPeriod(lib, e), Call.AtTexts("12:00")), first, second)
  {
    MiddayCall(lib, MeaningOfPeriod(lib, e));
  }

  lemma MonthDaysCall(lib: Lib, p: Plan, days: seq<int>)
    requires p.monthDays == []
    ensures Do(lib, p, OnMonthDays(days)) ==
            Choose(p.(monthDays := days, immediately := false,
                      error := FoldFrom(p.error, MonthDayErrors([], days))), Unit.Months)
  {
    assert [] + days == days;
  }

  lemma MonthDaysAgree(lib: Lib, e: Period, days: seq<int>, first: Instant, second: Instant)
    requires GoodPeriod(lib, e)
    ensures var p := Do(lib, MeaningOfPeriod(lib, e), OnMonthDays(days));
            if MonthDaysOk([], days) then Agrees(lib, e, OnThese(days), p, first, second) else !Schedulable(p)
  {
    MonthDaysCall(lib, MeaningOfPeriod(lib, e), days);
    MonthDayErrorsIff([], days);
  }

  lemma UnitCallAgrees(lib: Lib, e: Period, c: Call, first: Instant, second: Instant)
    requires GoodPeriod(lib, e)
    requires (c.In? && IsEachUnit(c.unit)) || c.On? || c == Call.AtTexts("12:00")
    ensures QualifierOf(c).Some?
    ensures Agrees(lib, e, QualifierOf(c).value, Do(lib, MeaningOfPeriod(lib, e), c), first, second)
  {
    if c.In? {
      UnitAgrees(lib, e, c.unit, first, second);
    } else if c.On? {
      WeekdayAgrees(lib, e, c.weekday, first, second);
    } else {
      MiddayAgrees(lib, e, first, second);
    }
  }

  /** The third token of a text with a good period. */
  lemma QualifyAgrees(lib: Lib, e: Period, tokens: seq<string>, first: Instant, second: Instant)
    requires |tokens| > 2 && GoodPeriod(lib, e)
    ensures var p := Qualify(lib, MeaningOfPeriod(lib, e), tokens);
            match ReadQualifier(tokens)
            case Some(q) => Agrees(lib, e, q, p, first, second)
            case None => !Schedulable(p)
  {
    var word := Lower(tokens[2]);
    if word == "monthdays" {
      if |tokens| >= 4 && ParseDays(tokens[3]).Some? {
        MonthDaysAgree(lib, e, ParseDays(tokens[3]).value, first, second);
      }
    } else {
      LookupKinds(word);
      if Lookup(word).Some? {
        UnitCallAgrees(lib, e, Lookup(word).value, first, second);
      }
    }
  }

  /** The validation holds of the parsed plan exactly when the text can be read, and then
      the plan is what the schedule read means. */
  lemma ParseAgreesWithRead(lib: Lib, text: string, first: Instant, second: Instant)
    ensures Schedulable(Parse(lib, FRESH, text, first, second)) <==> Read(lib, text).Some?
    ensures Read(lib, text).Some? ==>
              Parse(lib, FRESH, text, first, second) == Meaning(lib, Read(lib, text).value, first, second)
  {
    if text != "" && Lower(text) != "now" {
      var tokens := Split(text, ' ');
      if |tokens| >= 2 && Lower(tokens[0]) == "every" {
        EveryAgrees(lib, tokens, first, second);
      }
    }
  }

  /** Every qualifier that can be read names one of the units of the table. */
  lemma ReadUnits(lib: Lib, text: string)
    ensures match Read(lib, text)
            case Some(Periodic(_, Each(u))) => IsEachUnit(u)
            case _ => true
  {
    var tokens := Split(text, ' ');
    if |tokens| > 2 {
      LookupKinds(Lower(tokens[2]));
    }
  }

  lemma EveryAgrees(lib: Lib, tokens: seq<string>, first: Instant, second: Instant)
    requires |tokens| >= 2
    ensures var q := Do(lib, FRESH, PeriodCall(tokens[1]));
            var p := if |tokens| > 2 then Qualify(lib, q, tokens) else q;
            match (ReadPeriod(lib, tokens[1]), ReadQualifier(tokens))
            case (Some(e), Some(qualifier)) => Agrees(lib, e, qualifier, p, first, second)
            case _ => !Schedulable(p)
  {
    var q := Do(lib, FRESH, PeriodCall(tokens[1]));
    match ReadPeriod(lib, tokens[1]) {
      case None =>
        assert q.error.Some?;
        if |tokens| > 2 {
          FailureStays(lib, q, tokens);
        }
      case Some(e) =>
        assert q == MeaningOfPeriod(lib, e);
        if |tokens| > 2 {
          QualifyAgrees(lib, e, tokens, first, second);
        }
    }
  }

  lemma FailureStays(lib: Lib, p: Plan, tokens: seq<string>)
    requires p.error.Some? && |tokens| > 2
    ensures Qualify(lib, p, tokens).error.Some?
  {
  }

  // --- What can be read is what the language derives ----------------------------------

  lemma LowerAt(word: string, i: nat)
    requires i < |word|
    ensures LowerChar(word[i]) in Lower(word)
  {
    assert Lower(word)[i] == LowerChar(word[i]);
  }

  lemma LowerKeepsSpaces(word: string)
    requires SpaceFree(Lower(word))
    ensures SpaceFree(word)
  {
    if ' ' in word {
      var i :| 0 <= i < |word| && word[i] == ' ';
      LowerAt(word, i);
    }
  }

  lemma SplitBeforeIgnored(word: string, rest: string)
    requires SpaceFree(word) && Ignored(rest)
    ensures Split(word + rest, ' ')[0] == word
  {
    if rest == "" {
      assert word + rest == word;
      SplitOfWhole(word, ' ');
    } else {
      assert word + rest == word + [' '] + rest[1..];
      SplitOfPrefixed(word, ' ', rest[1..]);
    }
  }

  lemma SplitAfterWord(word: string, more: string)
    requires SpaceFree(word)
    ensures Split(word + " " + more, ' ') == [word] + Split(more, ' ')
  {
    SplitOfPrefixed(word, ' ', more);
    assert word + " " + more == word + [' '] + more;
  }

  lemma {:induction false} ParseIntsOf(pieces: seq<string>, days: seq<int>)
    requires |pieces| == |days|
    requires forall i | 0 <= i < |days| :: Atoi(pieces[i]) == Some(days[i])
    ensures ParseInts(pieces) == Some(days)
  {
    if pieces != [] {
      ParseIntsOf(pieces[1..], days[1..]);
      assert [days[0]] + days[1..] == days;
    }
  }

  lemma {:induction false} ParseIntsGives(pieces: seq<string>, days: seq<int>)
    requires ParseInts(pieces) == Some(days)
    ensures |pieces| == |days|
    ensures forall i | 0 <= i < |days| :: Atoi(pieces[i]) == Some(days[i])
  {
    if pieces != [] {
      ParseIntsGives(pieces[1..], days[1..]);
    }
  }

  lemma SpelledWord(text: string, word: string)
    requires Spells(text, word) && IsLowerWord(word)
    ensures Lower(text) == word && SpaceFree(text)
  {
    SpellsIff(text, word);
    LowerKeepsSpaces(text);
  }

  /** The two ways to understand a day list agree. */
  lemma WritesDaysIffParsed(word: string, days: seq<int>)
    ensures WritesDays(word, days) <==> ParseDays(word) == Some(days)
  {
    if WritesDays(word, days) {
      var pieces :| |pieces| == |days| && pieces != [] && word == Join(pieces, ',') &&
                    forall i | 0 <= i < |days| :: ',' !in pieces[i] && WritesInteger(pieces[i], days[i]);
      forall i | 0 <= i < |days| ensures Atoi(pieces[i]) == Some(days[i]) {
        AtoiIff(pieces[i], days[i]);
      }
      assert forall p | p in pieces :: ',' !in p;
      SplitOfJoin(pieces, ',');
      ParseIntsOf(pieces, days);
    }
    if ParseDays(word) == Some(days) {
      var pieces := Split(word, ',');
      ParseIntsGives(pieces, days);
      SplitPiecesAvoidSeparator(word, ',');
      JoinOfSplit(word, ',');
      forall i | 0 <= i < |days| ensures pieces[i] in pieces && WritesInteger(pieces[i], days[i]) {
        AtoiIff(pieces[i], days[i]);
      }
    }
  }

  lemma UnitOfIff(word: string, u: Unit)
    requires IsEachUnit(u)
    ensures UnitOf(word) == Some(u) <==> word == UnitWord(u) || word == UnitPlural(u)
  {
  }

  lemma DayOfIff(word: string, d: Weekday)
    ensures DayOf(word) == Some(d) <==> word == DayWord(d)
  {
  }

  /** The last letters of the words tell their kinds apart. */
  lemma UnitWordEnds(word: string)
    requires UnitOf(word).Some?
    ensures |word| >= 3 && DayOf(word).None? && word != "midday" && word != "monthdays"
  {
  }

  lemma DayWordEnds(word: string)
    requires DayOf(word).Some?
    ensures UnitOf(word).None? && word != "midday" && word != "monthdays"
  {
  }

  lemma OtherWords()
    ensures UnitOf("midday").None? && DayOf("midday").None?
    ensures UnitOf("monthdays").None? && DayOf("monthdays").None? && "monthdays" != "midday"
  {
  }

  /** The word table agrees with the words of the grammar. */
  lemma LookupIffNames(word: string, q: Qualifier)
    requires q.Each? || q.OnThe? || q.AtMidday?
    ensures Names(word, q) <==>
            Lower(word) != "monthdays" && Lookup(Lower(word)).Some? && QualifierOf(Lookup(Lower(word)).value) == Some(q)
  {
    match q {
      case Each(u) =>
        if IsEachUnit(u) {
          SpellsIff(word, UnitWord(u));
          SpellsIff(word, UnitPlural(u));
        }
      case OnThe(d) => SpellsIff(word, DayWord(d));
      case AtMidday => SpellsIff(word, "midday");
    }
    LookupWordIff(Lower(word), q);
  }

  /** The same for a lower-case word. */
  predicate IsWordOf(word: string, q: Qualifier)
    requires q.Each? || q.OnThe? || q.AtMidday?
  {
    match q
    case Each(u) => IsEachUnit(u) && (word == UnitWord(u) || word == UnitPlural(u))
    case OnThe(d) => word == DayWord(d)
    case AtMidday => word == "midday"
  }

  lemma LookupWordIff(word: string, q: Qualifier)
    requires q.Each? || q.OnThe? || q.AtMidday?
    ensures IsWordOf(word, q) <==>
            word != "monthdays" && Lookup(word).Some? && QualifierOf(Lookup(word).value) == Some(q)
  {
    match q
    case Each(u) => LookupUnitIff(word, u);
    case OnThe(d) => LookupDayIff(word, d);
    case AtMidday => LookupMiddayIff(word);
  }

  lemma LookupUnitIff(word: string, u: Unit)
    ensures IsWordOf(word, Each(u)) <==>
            word != "monthdays" && Lookup(word).Some? && QualifierOf(Lookup(word).value) == Some(Each(u))
  {
    if IsEachUnit(u) {
      UnitOfIff(word, u);
    }
    if UnitOf(word).Some? {
      UnitWordEnds(word);
      assert IsEachUnit(UnitOf(word).value);
    }
  }

  lemma LookupDayIff(word: string, d: Weekday)
    ensures IsWordOf(word, OnThe(d)) <==>
            word != "monthdays" && Lookup(word).Some? && QualifierOf(Lookup(word).value) == Some(OnThe(d))
  {
    DayOfIff(word, d);
    if DayOf(word).Some? {
      DayWordEnds(word);
    }
  }

  lemma LookupMiddayIff(word: string)
    ensures IsWordOf(word, AtMidday) <==>
            word != "monthdays" && Lookup(word).Some? && QualifierOf(Lookup(word).value) == Some(AtMidday)
  {
    OtherWords();
  }

  lemma NamesAreSpaceFree(word: string, q: Qualifier)
    requires Names(word, q)
    ensures SpaceFree(word)
  {
    match q {
      case Each(u) => SpelledWord(word, if Spells(word, UnitWord(u)) then UnitWord(u) else UnitPlural(u));
      case OnThe(d) => SpelledWord(word, DayWord(d));
      case OnThese(_) => SpelledWord(word, "monthdays");
      case AtMidday => SpelledWord(word, "midday");
    }
  }

  /** The tokens of a text whose first two words are given. */
  lemma TokensOf(keyword: string, word: string, more: string)
    requires SpaceFree(keyword) && SpaceFree(word)
    ensures Split(keyword + " " + word + (" " + more), ' ') == [keyword, word] + Split(more, ' ')
  {
    assert keyword + " " + word + (" " + more) == keyword + " " + (word + " " + more);
    SplitAfterWord(keyword, word + " " + more);
    SplitAfterWord(word, more);
  }

  /** A day list and what follows it, as tokens. */
  lemma DaysAreRead(tokens: seq<string>, name: string, list: string, days: seq<int>, rest: string)
    requires Names(name, OnThese(days)) && MonthDaysOk([], days)
    requires Ignored(rest) && SpaceFree(list) && WritesDays(list, days)
    requires |tokens| >= 2 && tokens[2..] == Split(name + " " + (list + rest), ' ')
    ensures ReadQualifier(tokens) == Some(OnThese(days))
  {
    SpelledWord(name, "monthdays");
    SplitAfterWord(name, list + rest);
    SplitBeforeIgnored(list, rest);
    WritesDaysIffParsed(list, days);
    assert tokens[2] == tokens[2..][0] && tokens[3] == tokens[2..][1];
  }

  /** Any other qualifier and what follows it, as tokens. */
  lemma WordIsRead(tokens: seq<string>, name: string, q: Qualifier, rest: string)
    requires Names(name, q) && !q.OnThese? && Ignored(rest)
    requires |tokens| >= 2 && tokens[2..] == Split(name + rest, ' ')
    ensures ReadQualifier(tokens) == Some(q)
  {
    NamesAreSpaceFree(name, q);
    SplitBeforeIgnored(name, rest);
    LookupIffNames(name, q);
    assert tokens[2] == tokens[2..][0];
  }

  /** The text splits into a keyword, a period and then a qualifier that reads as `q`. */
  predicate ReadsAs(text: string, keyword: string, word: string, q: Qualifier) {
    var tokens := Split(text, ' ');
    |tokens| >= 2 && tokens[0] == keyword && tokens[1] == word && ReadQualifier(tokens) == Some(q)
  }

  lemma NoTailIsRead(keyword: string, word: string)
    requires SpaceFree(keyword) && SpaceFree(word)
    ensures ReadsAs(keyword + " " + word, keyword, word, Unqualified)
  {
    SplitAfterWord(keyword, word);
    SplitOfWhole(word, ' ');
  }

  lemma DaysTailIsRead(keyword: string, word: string, tail: string,
                       days: seq<int>, name: string, list: string, rest: string)
    requires SpaceFree(keyword) && SpaceFree(word) && IsDaysTail(tail, days, name, list, rest)
    ensures ReadsAs(keyword + " " + word + tail, keyword, word, OnThese(days))
  {
    var more := name + " " + (list + rest);
    TokensOf(keyword, word, more);
    DaysAreRead([keyword, word] + Split(more, ' '), name, list, days, rest);
  }

  lemma WordTailIsRead(keyword: string, word: string, tail: string, q: Qualifier, name: string, rest: string)
    requires SpaceFree(keyword) && SpaceFree(word) && !q.OnThese? && IsWordTail(tail, q, name, rest)
    ensures ReadsAs(keyword + " " + word + tail, keyword, word, q)
  {
    TokensOf(keyword, word, name + rest);
    WordIsRead([keyword, word] + Split(name + rest, ' '), name, q, rest);
  }

  /** From a tail to the tokens after the period. */
  lemma QualifierIsRead(keyword: string, word: string, tail: string, q: Qualifier)
    requires SpaceFree(keyword) && SpaceFree(word) && WritesQualifier(tail, q)
    ensures ReadsAs(keyword + " " + word + tail, keyword, word, q)
  {
    if q.Unqualified? {
      assert keyword + " " + word + tail == keyword + " " + word;
      NoTailIsRead(keyword, word);
    } else if q.OnThese? {
      var name, list, rest :| IsDaysTail(tail, q.days, name, list, rest);
      DaysTailIsRead(keyword, word, tail, q.days, name, list, rest);
    } else {
      var name, rest :| IsWordTail(tail, q, name, rest);
      WordTailIsRead(keyword, word, tail, q, name, rest);
    }
  }

  lemma DerivedIsRead(lib: Lib, text: string, v: Schedule)
    requires Derives(lib, text, v)
    ensures Read(lib, text) == Some(v)
  {
    match v
    case Immediately => SpellsIff(text, "now");
    case Periodic(e, q) => DerivedPeriodicIsRead(lib, text, e, q);
    case CronTable(expr) => DerivedCronIsRead(lib, text, expr);
  }

  lemma DerivedPeriodicIsRead(lib: Lib, text: string, e: Period, q: Qualifier)
    requires Derives(lib, text, Periodic(e, q))
    ensures Read(lib, text) == Some(Periodic(e, q))
  {
    var keyword, word, tail :| WritesPeriodic(lib, text, e, q, keyword, word, tail);
    WrittenPeriodicReads(lib, text, e, q, keyword, word, tail);
    PeriodicIsRead(lib, text, keyword, word, e, q);
  }

  lemma WrittenPeriodicReads(lib: Lib, text: string, e: Period, q: Qualifier,
                             keyword: string, word: string, tail: string)
    requires WritesPeriodic(lib, text, e, q, keyword, word, tail)
    ensures text != "" && Lower(text) != "now" && ReadsAs(text, keyword, word, q)
  {
    SpelledWord(keyword, "every");
    QualifierIsRead(keyword, word, tail, q);
    Regroup(keyword, word, tail);
    HasSpace(keyword, word + tail);
  }

  lemma Regroup(a: string, b: string, c: string)
    ensures a + " " + b + c == a + " " + (b + c)
  {
  }

  lemma PeriodicIsRead(lib: Lib, text: string, keyword: string, word: string, e: Period, q: Qualifier)
    requires text != "" && Lower(text) != "now"
    requires ReadsAs(text, keyword, word, q) && Spells(keyword, "every")
    requires WritesPeriod(lib, word, e) && Compatible(e, q)
    ensures Read(lib, text) == Some(Periodic(e, q))
  {
    SpelledWord(keyword, "every");
    PeriodIsRead(lib, word, e);
  }

  lemma PeriodIsRead(lib: Lib, word: string, e: Period)
    ensures WritesPeriod(lib, word, e) <==> SpaceFree(word) && ReadPeriod(lib, word) == Some(e)
  {
    AtoiNoneIff(word);
    if e.Count? {
      AtoiIff(word, e.n);
    }
  }

  lemma DerivedCronIsRead(lib: Lib, text: string, expr: string)
    requires Derives(lib, text, CronTable(expr))
    ensures Read(lib, text) == Some(CronTable(expr))
  {
    var keyword, rest :| WritesCron(text, expr, keyword, rest);
    SpelledWord(keyword, "cron");
    IsCronIff(lib, expr);
    assert text == keyword + " " + (expr + rest);
    HasSpace(keyword, expr + rest);
    SplitAfterWord(keyword, expr + rest);
    SplitBeforeIgnored(expr, rest);
  }

  lemma HasSpace(a: string, b: string)
    ensures a + " " + b != "" && Lower(a + " " + b) != "now"
  {
    assert (a + " " + b)[|a|] == ' ';
    assert Lower(a + " " + b)[|a|] == ' ';
  }

  /** Every text is its first `n` tokens and an ignorable rest. */
  lemma {:induction false} TokensThenRest(text: string, n: nat) returns (rest: string)
    requires 1 <= n <= |Split(text, ' ')|
    ensures text == Join(Split(text, ' ')[..n], ' ') + rest && Ignored(rest)
    ensures n == |Split(text, ' ')| ==> rest == ""
  {
    var tokens := Split(text, ' ');
    JoinOfSplit(text, ' ');
    if n == |tokens| {
      assert tokens[..n] == tokens;
      rest := "";
    } else {
      JoinOfConcat(tokens[..n], tokens[n..]);
      assert tokens[..n] + tokens[n..] == tokens;
      rest := " " + Join(tokens[n..], ' ');
    }
  }

  lemma {:induction false} JoinOfConcat(a: seq<string>, b: seq<string>)
    requires a != [] && b != []
    ensures Join(a + b, ' ') == Join(a, ' ') + " " + Join(b, ' ')
  {
    if |a| == 1 {
      assert (a + b)[1..] == b;
    } else {
      assert (a + b)[1..] == a[1..] + b;
      JoinOfConcat(a[1..], b);
    }
  }

  lemma JoinShort(a: string, b: string, c: string, d: string)
    ensures Join([a, b], ' ') == a + " " + b
    ensures Join([a, b, c], ' ') == a + " " + b + (" " + c)
    ensures Join([a, b, c, d], ' ') == a + " " + b + (" " + c + " " + d)
  {
    assert [a, b][1..] == [b];
    assert [a, b, c][1..] == [b, c] && [b, c][1..] == [c];
    assert [a, b, c, d][1..] == [b, c, d] && [b, c, d][1..] == [c, d] && [c, d][1..] == [d];
    assert Join([b, c], ' ') == b + " " + c;
    assert Join([c, d], ' ') == c + " " + d;
    assert Join([b, c, d], ' ') == b + " " + (c + " " + d);
  }

  lemma ReadIsDerived(lib: Lib, text: string, v: Schedule)
    requires Read(lib, text) == Some(v)
    ensures Derives(lib, text, v)
  {
    var tokens := Split(text, ' ');
    SplitPiecesAvoidSeparator(text, ' ');
    match v
    case Immediately => SpellsIff(text, "now");
    case Periodic(e, q) => ReadPeriodicIsDerived(lib, text, e, q);
    case CronTable(expr) =>
      SpellsIff(tokens[0], "cron");
      IsCronIff(lib, expr);
      assert tokens[1] in tokens;
      var rest := TokensThenRest(text, 2);
      assert tokens[..2] == [tokens[0], tokens[1]];
      JoinShort(tokens[0], tokens[1], "", "");
      assert WritesCron(text, expr, tokens[0], rest);
  }

  lemma ReadPeriodicIsDerived(lib: Lib, text: string, e: Period, q: Qualifier)
    requires Read(lib, text) == Some(Periodic(e, q))
    ensures Derives(lib, text, Periodic(e, q))
  {
    var tokens := Split(text, ' ');
    SplitPiecesAvoidSeparator(text, ' ');
    assert tokens[1] in tokens;
    assert ReadPeriod(lib, tokens[1]) == Some(e) && ReadQualifier(tokens) == Some(q);
    SpellsIff(tokens[0], "every");
    PeriodIsRead(lib, tokens[1], e);
    var tail := ReadTail(text, q);
    assert WritesPeriodic(lib, text, e, q, tokens[0], tokens[1], tail);
  }

  lemma ReadTail(text: string, q: Qualifier) returns (tail: string)
    requires |Split(text, ' ')| >= 2 && ReadQualifier(Split(text, ' ')) == Some(q)
    ensures text == Split(text, ' ')[0] + " " + Split(text, ' ')[1] + tail
    ensures WritesQualifier(tail, q)
  {
    if |Split(text, ' ')| == 2 {
      tail := ReadNoTail(text);
    } else if q.OnThese? {
      DaysReadFrom(Split(text, ' '), q.days);
      tail := ReadDaysTail(text, q.days);
    } else {
      NotMonthDays(Split(text, ' '), q);
      LookupIffNames(Split(text, ' ')[2], q);
      tail := ReadWordTail(text, q);
    }
  }

  lemma ReadNoTail(text: string) returns (tail: string)
    requires |Split(text, ' ')| == 2
    ensures tail == "" && text == Split(text, ' ')[0] + " " + Split(text, ' ')[1] + tail
  {
    var tokens := Split(text, ' ');
    tail := TokensThenRest(text, 2);
    assert tokens[..2] == [tokens[0], tokens[1]];
    JoinShort(tokens[0], tokens[1], "", "");
  }

  lemma ReadWordTail(text: string, q: Qualifier) returns (tail: string)
    requires |Split(text, ' ')| > 2 && Names(Split(text, ' ')[2], q) && !q.OnThese?
    ensures text == Split(text, ' ')[0] + " " + Split(text, ' ')[1] + tail
    ensures WritesQualifier(tail, q)
  {
    var tokens := Split(text, ' ');
    var rest := TokensThenRest(text, 3);
    assert tokens[..3] == [tokens[0], tokens[1], tokens[2]];
    JoinShort(tokens[0], tokens[1], tokens[2], "");
    tail := " " + (tokens[2] + rest);
    assert IsWordTail(tail, q, tokens[2], rest);
    assert text == tokens[0] + " " + tokens[1] + tail;
  }

  lemma ReadDaysTail(text: string, days: seq<int>) returns (tail: string)
    requires |Split(text, ' ')| >= 4 && Names(Split(text, ' ')[2], OnThese(days))
    requires WritesDays(Split(text, ' ')[3], days) && MonthDaysOk([], days)
    ensures text == Split(text, ' ')[0] + " " + Split(text, ' ')[1] + tail
    ensures WritesQualifier(tail, OnThese(days))
  {
    var rest := FourTokens(text);
    var tokens := Split(text, ' ');
    tail := " " + (tokens[2] + " " + (tokens[3] + rest));
    assert IsDaysTail(tail, days, tokens[2], tokens[3], rest);
  }

  lemma FourTokens(text: string) returns (rest: string)
    requires |Split(text, ' ')| >= 4
    ensures var tokens := Split(text, ' ');
            text == tokens[0] + " " + tokens[1] + (" " + (tokens[2] + " " + (tokens[3] + rest))) &&
            SpaceFree(tokens[3])
    ensures Ignored(rest)
  {
    var tokens := Split(text, ' ');
    rest := TokensThenRest(text, 4);
    assert tokens[..4] == [tokens[0], tokens[1], tokens[2], tokens[3]];
    JoinShort(tokens[0], tokens[1], tokens[2], tokens[3]);
    SplitPiecesAvoidSeparator(text, ' ');
    assert tokens[3] in tokens;
    var ab, c, d := tokens[0] + " " + tokens[1], tokens[2], tokens[3];
    assert ab + (" " + c + " " + d) + rest == ab + (" " + (c + " " + (d + rest)));
  }

  lemma DaysReadFrom(tokens: seq<string>, days: seq<int>)
    requires |tokens| > 2 && ReadQualifier(tokens) == Some(OnThese(days))
    ensures |tokens| >= 4 && Names(tokens[2], OnThese(days))
    ensures WritesDays(tokens[3], days) && MonthDaysOk([], days)
  {
    LookupKinds(Lower(tokens[2]));
    SpellsIff(tokens[2], "monthdays");
    assert ParseDays(tokens[3]) == Some(days);
    WritesDaysIffParsed(tokens[3], days);
  }

  lemma NotMonthDays(tokens: seq<string>, q: Qualifier)
    requires |tokens| > 2 && ReadQualifier(tokens) == Some(q) && !q.OnThese?
    ensures Lower(tokens[2]) != "monthdays" && Lookup(Lower(tokens[2])).Some?
    ensures QualifierOf(Lookup(Lower(tokens[2])).value) == Some(q)
    ensures q.Each? || q.OnThe? || q.AtMidday?
  {
    LookupKinds(Lower(tokens[2]));
  }

  // --- The theorems -------------------------------------------------------------------

  /** A fresh builder fed with `text` passes the validation exactly when the grammar
      derives `text`. */
  lemma AcceptsExactlyTheLanguage(lib: Lib, text: string, first: Instant, second: Instant)
    ensures Schedulable(Parse(lib, FRESH, text, first, second)) <==> exists v :: Derives(lib, text, v)
  {
    ParseAgreesWithRead(lib, text, first, second);
    if Read(lib, text).Some? {
      ReadIsDerived(lib, text, Read(lib, text).value);
    }
    if v :| Derives(lib, text, v) {
      DerivedIsRead(lib, text, v);
    }
  }

  /** And the builder then holds exactly what the schedule means. */
  lemma GivesTheMeaning(lib: Lib, text: string, v: Schedule, first: Instant, second: Instant)
    requires Derives(lib, text, v)
    ensures Parse(lib, FRESH, text, first, second) == Meaning(lib, v, first, second)
  {
    DerivedIsRead(lib, text, v);
    ParseAgreesWithRead(lib, text, first, second);
  }

  /** A text writes at most one schedule. */
  lemma Unambiguous(lib: Lib, text: string, v: Schedule, w: Schedule)
    requires Derives(lib, text, v) && Derives(lib, text, w)
    ensures v == w
  {
    DerivedIsRead(lib, text, v);
    DerivedIsRead(lib, text, w);
  }

  /** The words of two texts are the same, but for capitals in the keyword and in the word
      of the unit, which are the first and the third. */
  predicate SameWords(a: seq<string>, b: seq<string>) {
    |a| == |b| && forall i | 0 <= i < |a| :: if i == 0 || i == 2 then SameLetters(a[i], b[i]) else a[i] == b[i]
  }

  /** Capitals make no difference there, whatever the builder holds and whatever the text. */
  lemma CapitalsDoNotMatter(lib: Lib, p: Plan, text: string, other: string, first: Instant, second: Instant)
    requires SameWords(Split(text, ' '), Split(other, ' '))
    ensures Parse(lib, p, text, first, second) == Parse(lib, p, other, first, second)
  {
    var a, b := Split(text, ' '), Split(other, ' ');
    SameLettersLower(a[0], b[0]);
    if |a| > 2 {
      SameLettersLower(a[2], b[2]);
    }
    NowIsOneWord(text);
    NowIsOneWord(other);
    assert a[0] == "" <==> b[0] == "";
  }

  lemma NowIsOneWord(text: string)
    ensures text == "" || Lower(text) == "now" <==>
            |Split(text, ' ')| == 1 && (Split(text, ' ')[0] == "" || Lower(Split(text, ' ')[0]) == "now")
  {
    JoinOfSplit(text, ' ');
    if SpaceFree(Lower(text)) {
      LowerKeepsSpaces(text);
      SplitOfWhole(text, ' ');
    }
  }

  /** The error a rejected text leaves on a fresh builder says what is wrong with it: the kind
      of schedule, the unit, or an interval that is not positive. */
  lemma RejectionNamesTheFault(lib: Lib, text: string, first: Instant, second: Instant)
    ensures var tokens, error := Split(text, ' '), Parse(lib, FRESH, text, first, second).error;
            (|tokens| == 1 && text != "" && !Spells(text, "now") ==> error == Some(Plain(ErrInvalidScheduleType))) &&
            (|tokens| > 1 && (forall word | word in {"every", "at", "cron"} :: !Spells(tokens[0], word)) ==>
               error == Some(Plain(ErrInvalidScheduleType)))
    ensures Spells(Split(text, ' ')[0], "every") && |Split(text, ' ')| > 1 ==>
              EveryFault(Split(text, ' '), Parse(lib, FRESH, text, first, second).error)
  {
    var tokens := Split(text, ' ');
    SpellsIff(text, "now");
    SpellsIff(tokens[0], "every");
    SpellsIff(tokens[0], "at");
    SpellsIff(tokens[0], "cron");
    NowIsOneWord(text);
    if |tokens| > 1 && Spells(tokens[0], "every") {
      EveryNamesTheFault(lib, tokens);
    } else if |tokens| > 1 && (forall word | word in {"every", "at", "cron"} :: !Spells(tokens[0], word)) {
      assert "every" in {"every", "at", "cron"} && "at" in {"every", "at", "cron"} && "cron" in {"every", "at", "cron"};
    }
  }

  /** The fault of a periodic schedule whose period is an integer. */
  ghost predicate EveryFault(tokens: seq<string>, error: Option<Error>)
    requires |tokens| > 1
  {
    (|tokens| == 2 ==> forall n | WritesInteger(tokens[1], n) :: n <= 0 ==> error == Some(Plain(ErrInvalidInterval))) &&
    (|tokens| > 2 && (forall q :: !Names(tokens[2], q)) ==>
       forall n | WritesInteger(tokens[1], n) :: n > 0 ==> error == Some(Plain(ErrInvalidSchedulingUnit))) &&
    (|tokens| == 3 && Spells(tokens[2], "monthdays") ==>
       forall n | WritesInteger(tokens[1], n) :: n > 0 ==> error == Some(Plain(ErrInvalidScheduleType)))
  }

  lemma EveryNamesTheFault(lib: Lib, tokens: seq<string>)
    requires |tokens| > 1
    ensures var q := Do(lib, FRESH, PeriodCall(tokens[1]));
            EveryFault(tokens, (if |tokens| > 2 then Qualify(lib, q, tokens) else q).error)
  {
    forall n | WritesInteger(tokens[1], n) ensures Atoi(tokens[1]) == Some(n) {
      AtoiIff(tokens[1], n);
    }
    if |tokens| > 2 {
      SpellsIff(tokens[2], "monthdays");
      if forall q :: !Names(tokens[2], q) {
        NoNameNoLookup(tokens[2]);
      }
    }
  }

  lemma NoNameNoLookup(word: string)
    requires forall q :: !Names(word, q)
    ensures Lookup(Lower(word)).None? && Lower(word) != "monthdays"
  {
    SpellsIff(word, "monthdays");
    assert !Names(word, OnThese([]));
    LookupKinds(Lower(word));
    if Lookup(Lower(word)).Some? {
      var q := QualifierOf(Lookup(Lower(word)).value).value;
      LookupIffNames(word, q);
    }
  }

  /** No text that asks for a time of day alone is ever accepted. */
  lemma AtIsNeverAccepted(lib: Lib, text: string, first: Instant, second: Instant)
    requires Spells(Split(text, ' ')[0], "at")
    ensures !Schedulable(Parse(lib, FRESH, text, first, second))
  {
    ParseAgreesWithRead(lib, text, first, second);
    SpellsIff(Split(text, ' ')[0], "at");
    if text == "" || Lower(text) == "now" {
      if text != "" {
        LowerKeepsSpaces(text);
      }
      SplitOfWhole(text, ' ');
    }
  }

  // --- Printing -----------------------------------------------------------------------

  /** The schedules that can be written. */
  ghost predicate WellFormed(lib: Lib, v: Schedule) {
    match v
    case Immediately => true
    case CronTable(expr) => SpaceFree(expr) && IsCron(lib, expr)
    case Periodic(e, q) =>
      Compatible(e, q) &&
      (match e
       case Count(n) => 0 < n <= MAX_INT
       case Span(text) => SpaceFree(text) && WritesNoInteger(text) && lib.duration(text).Success?) &&
      (match q
       case Each(u) => IsEachUnit(u)
       case OnThese(days) => MonthDaysOk([], days)
       case _ => true)
  }

  function PrintDays(days: seq<int>): string {
    Join(seq(|days|, i requires 0 <= i < |days| => FormatInt(days[i])), ',')
  }

  function QualifierWord(q: Qualifier): string
    requires q.Each? || q.OnThe? || q.AtMidday?
    requires q.Each? ==> IsEachUnit(q.unit)
  {
    match q
    case Each(u) => UnitWord(u)
    case OnThe(d) => DayWord(d)
    case AtMidday => "midday"
  }

  function PrintQualifier(q: Qualifier): string
    requires q.Each? ==> IsEachUnit(q.unit)
  {
    match q
    case Unqualified => ""
    case OnThese(days) => " " + ("monthdays" + " " + PrintDays(days))
    case _ => " " + QualifierWord(q)
  }

  function Print(lib: Lib, v: Schedule): string
    requires WellFormed(lib, v)
  {
    match v
    case Immediately => "now"
    case CronTable(expr) => "cron " + expr
    case Periodic(e, q) =>
      "every " + PeriodWord(e) + PrintQualifier(q)
  }

  lemma {:induction false} JoinAvoids(pieces: seq<string>, c: char)
    requires c != ','
    requires forall p | p in pieces :: c !in p
    ensures c !in Join(pieces, ',')
  {
    if |pieces| > 1 {
      assert forall p | p in pieces[1..] :: p in pieces;
      JoinAvoids(pieces[1..], c);
    }
  }

  /** Reading a printed list of days, whatever they are, gives the days back. */
  lemma ParseDaysOfPrinted(days: seq<int>)
    requires days != [] && forall d | d in days :: -MAX_INT - 1 <= d <= MAX_INT
    ensures ParseDays(PrintDays(days)) == Some(days)
    ensures SpaceFree(PrintDays(days))
  {
    var pieces := seq(|days|, i requires 0 <= i < |days| => FormatInt(days[i]));
    forall i | 0 <= i < |days| ensures Atoi(pieces[i]) == Some(days[i]) && ',' !in pieces[i] && ' ' !in pieces[i] {
      assert days[i] in days;
      AtoiOfFormatInt(days[i]);
      FormatIntCharacters(days[i]);
    }
    JoinAvoids(pieces, ' ');
    SplitOfJoin(pieces, ',');
    ParseIntsOf(pieces, days);
  }

  /** A qualifier of one word, printed with that word. */
  lemma PrintedWordDerives(word: string, q: Qualifier)
    requires Names(word, q) && !q.OnThese?
    ensures WritesQualifier(" " + word, q)
  {
    assert word + "" == word;
    assert IsWordTail(" " + word, q, word, "");
  }

  lemma PrintedDaysDerive(name: string, list: string, days: seq<int>)
    requires MonthDaysOk([], days) && Names(name, OnThese(days))
    requires SpaceFree(list) && WritesDays(list, days)
    ensures WritesQualifier(" " + (name + " " + list), OnThese(days))
  {
    assert list + "" == list;
    assert IsDaysTail(" " + (name + " " + list), days, name, list, "");
  }

  lemma PrintedQualifierDerives(q: Qualifier)
    requires q.Each? ==> IsEachUnit(q.unit)
    requires q.OnThese? ==> MonthDaysOk([], q.days)
    ensures WritesQualifier(PrintQualifier(q), q)
  {
    match q
    case Unqualified =>
    case OnThese(days) =>
      ParseDaysOfPrinted(days);
      WritesDaysIffParsed(PrintDays(days), days);
      MonthdaysNames(days);
      PrintedDaysDerive("monthdays", PrintDays(days), days);
    case _ =>
      PrintedWordNames(q);
      PrintedWordDerives(QualifierWord(q), q);
  }

  lemma MonthdaysNames(days: seq<int>)
    ensures Names("monthdays", OnThese(days))
  {
  }

  lemma PrintedWordNames(q: Qualifier)
    requires q.Each? || q.OnThe? || q.AtMidday?
    requires q.Each? ==> IsEachUnit(q.unit)
    ensures Names(QualifierWord(q), q)
  {
  }

  lemma PrintedCronDerives(lib: Lib, expr: string)
    requires WellFormed(lib, CronTable(expr))
    ensures Derives(lib, "cron " + expr, CronTable(expr))
  {
    assert "cron " + expr == "cron" + " " + expr + "";
    assert WritesCron("cron " + expr, expr, "cron", "");
  }

  function PeriodWord(e: Period): string {
    match e case Count(n) => FormatInt(n) case Span(text) => text
  }

  lemma PrintedPeriodWrites(lib: Lib, e: Period, q: Qualifier)
    requires WellFormed(lib, Periodic(e, q))
    ensures WritesPeriod(lib, PeriodWord(e), e)
  {
    if e.Count? {
      AtoiOfFormatInt(e.n);
      AtoiIff(FormatInt(e.n), e.n);
      FormatIntCharacters(e.n);
    }
  }

  lemma PrintedPeriodicDerives(lib: Lib, e: Period, q: Qualifier)
    requires WellFormed(lib, Periodic(e, q))
    ensures Derives(lib, "every " + PeriodWord(e) + PrintQualifier(q), Periodic(e, q))
  {
    var word, tail := PeriodWord(e), PrintQualifier(q);
    PrintedPeriodWrites(lib, e, q);
    PrintedQualifierDerives(q);
    EveryWord(word, tail);
    assert WritesPeriodic(lib, "every " + word + tail, e, q, "every", word, tail);
  }

  lemma EveryWord(word: string, tail: string)
    ensures "every " + word + tail == "every" + " " + word + tail
  {
    assert "every " == "every" + " ";
  }

  lemma PrintedDerives(lib: Lib, v: Schedule)
    requires WellFormed(lib, v)
    ensures Derives(lib, Print(lib, v), v)
  {
    match v
    case Immediately =>
    case CronTable(expr) => PrintedCronDerives(lib, expr);
    case Periodic(e, q) => PrintedPeriodicDerives(lib, e, q);
  }

  /** Printing and parsing: the text of a schedule is accepted, writes that schedule and no
      other, and fills a fresh builder with its meaning. */
  lemma PrintThenParse(lib: Lib, v: Schedule, first: Instant, second: Instant)
    requires WellFormed(lib, v)
    ensures Read(lib, Print(lib, v)) == Some(v)
    ensures Parse(lib, FRESH, Print(lib, v), first, second) == Meaning(lib, v, first, second)
    ensures Schedulable(Meaning(lib, v, first, second))
  {
    PrintedDerives(lib, v);
    DerivedIsRead(lib, Print(lib, v), v);
    ParseAgreesWithRead(lib, Print(lib, v), first, second);
  }

  /** Every text of the language can be replaced by the printed form of what it writes. */
  lemma AcceptedIsPrintable(lib: Lib, text: string, v: Schedule, first: Instant, second: Instant)
    requires Derives(lib, text, v)
    ensures WellFormed(lib, v)
    ensures Parse(lib, FRESH, Print(lib, v), first, second) == Parse(lib, FRESH, text, first, second)
  {
    DerivedIsWellFormed(lib, text, v);
    GivesTheMeaning(lib, text, v, first, second);
    PrintThenParse(lib, v, first, second);
  }

  lemma DerivedIsWellFormed(lib: Lib, text: string, v: Schedule)
    requires Derives(lib, text, v)
    ensures WellFormed(lib, v)
  {
    if v.Periodic? && v.every.Count? {
      var keyword, word, tail :| WritesPeriodic(lib, text, v.every, v.qualifier, keyword, word, tail);
    }
  }
}
