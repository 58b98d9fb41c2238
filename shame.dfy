/** The shame-message generator: for an escalation level (clamped to 1..3) it picks a
    subject, an opening, a shame message and a call to action from that level's
    template lists and fills their `{name}` placeholders. Randomness is an input: the
    `rolls` stand for the indices `Math.random` would have drawn. */
module Shame {
  import opened Text
  import opened Placeholders

  // ------------------------------------------------------------- templates

  /** One level's template lists. */
  datatype LevelTemplates = LevelTemplates(
    subjects: seq<seq<Segment>>,
    openings: seq<seq<Segment>>,
    shameMessages: seq<seq<Segment>>,
    callsToAction: seq<seq<Segment>>)

  const TaskTitle := Hole("taskTitle")
  const OwnerName := Hole("ownerName")
  const ContactName := Hole("contactName")
  const DueDate := Hole("dueDate")
  const HoursOverdue := Hole("hoursOverdue")

  const Level1: LevelTemplates := LevelTemplates(
    [ [Lit("⏰ Gentle Reminder: "), OwnerName, Lit(" missed \""), TaskTitle, Lit("\" deadline")],
      [Lit("🔔 Hey "), ContactName, Lit(", "), OwnerName, Lit(" could use your support")],
      [Lit("⏰ "), OwnerName, Lit(" missed their deadline for \""), TaskTitle, Lit("\"")] ],
    [ [Lit("Hi "), ContactName, Lit(", just a gentle nudge from AccountaList!")],
      [Lit("Hey "), ContactName, Lit(", hope you're doing well!")],
      [Lit("Hi "), ContactName, Lit(", this is a friendly reminder from AccountaList.")] ],
    [ [OwnerName, Lit(" missed their deadline for \""), TaskTitle, Lit("\" which was due "), DueDate,
       Lit(". As their accountability contact, maybe a friendly check-in would help?")],
      [OwnerName, Lit(" was supposed to complete \""), TaskTitle, Lit("\" by "), DueDate,
       Lit(", but they haven't marked it as done yet. They might need some encouragement!")],
      [Lit("Your accountability buddy "), OwnerName, Lit(" missed their \""), TaskTitle,
       Lit("\" deadline. Time for some friendly motivation?")],
      [OwnerName, Lit(" is "), HoursOverdue, Lit(" behind on \""), TaskTitle,
       Lit("\". A gentle nudge from you could make all the difference!")] ],
    [ [Lit("Consider sending them a supportive message or checking if they need help!")],
      [Lit("Maybe reach out and see if they need assistance or motivation?")],
      [Lit("A friendly text or call might be just what they need to get back on track.")],
      [Lit("Your encouragement could help them push through and complete this task!")] ])

  const Level2: LevelTemplates := LevelTemplates(
    [ [Lit("🚨 Escalation Alert: "), OwnerName, Lit(" still hasn't completed \""), TaskTitle, Lit("\"")],
      [Lit("🔥 Second Warning: "), OwnerName, Lit(" is seriously behind on \""), TaskTitle, Lit("\"")],
      [Lit("🚨 "), OwnerName, Lit(" needs intervention - \""), TaskTitle, Lit("\" still incomplete")] ],
    [ [Lit("Hi "), ContactName, Lit(", this is a more serious escalation from AccountaList.")],
      [ContactName, Lit(", we need your help - this is escalation level 2.")],
      [Lit("Hey "), ContactName, Lit(", time for stronger intervention.")] ],
    [ [Lit("This is the SECOND escalation for "), OwnerName, Lit(". They're now "), HoursOverdue,
       Lit(" overdue on \""), TaskTitle, Lit("\" and clearly struggling with accountability.")],
      [OwnerName, Lit(" is "), HoursOverdue, Lit(" behind schedule on \""), TaskTitle,
       Lit("\". The gentle approach didn't work - time for tougher love!")],
      [Lit("Houston, we have a problem! "), OwnerName, Lit(" has ignored their commitment to \""), TaskTitle,
       Lit("\" for "), HoursOverdue, Lit(". They need your intervention.")],
      [Lit("Red alert! "), OwnerName, Lit(" is failing their accountability system. \""), TaskTitle,
       Lit("\" was due "), DueDate, Lit(" and they're "), HoursOverdue, Lit(" overdue.")] ],
    [ [Lit("This calls for stronger encouragement - maybe it's time for a direct conversation?")],
      [Lit("Consider escalating your support - a phone call or in-person check-in might be needed.")],
      [Lit("Time to apply some pressure! They clearly need more than gentle encouragement.")],
      [Lit("Your buddy is struggling. Time to step up the accountability game!")] ])

  const Level3: LevelTemplates := LevelTemplates(
    [ [Lit("💀 MAXIMUM SHAME: "), OwnerName, Lit(" has officially failed \""), TaskTitle, Lit("\"")],
      [Lit("🔥💀 FINAL ESCALATION: "), OwnerName, Lit(" completely dropped the ball")],
      [Lit("💀 SHAME ALERT: "), OwnerName, Lit(" has broken their commitment to \""), TaskTitle, Lit("\"")] ],
    [ [Lit("💀 MAXIMUM SHAME ACTIVATED 💀")],
      [Lit("🔥 FINAL ESCALATION - NO MORE MR. NICE GUY 🔥")],
      [Lit("💀 This is it, "), ContactName, Lit(". Maximum accountability mode. 💀")] ],
    [ [Lit("💀 OFFICIAL FAILURE NOTICE 💀\n\n"), OwnerName, Lit(" has completely failed their commitment to \""),
       TaskTitle, Lit("\". They are now "), HoursOverdue,
       Lit(" overdue and have ignored TWO previous escalations. This is public accountability failure.")],
      [Lit("🔥 SHAME LEVEL: MAXIMUM 🔥\n\n"), OwnerName, Lit(" promised to complete \""), TaskTitle,
       Lit("\" by "), DueDate, Lit(". They are now "), HoursOverdue,
       Lit(" overdue and have officially broken their word. Time for consequences!")],
      [Lit("💀 ACCOUNTABILITY BREAKDOWN 💀\n\n"), OwnerName,
       Lit(" has demonstrated they cannot be trusted to keep their commitments. \""), TaskTitle,
       Lit("\" remains incomplete after "), HoursOverdue,
       Lit(". The gentle approach failed. The escalation failed. Maximum shame is now justified.")],
      [Lit("🚨 COMMITMENT VIOLATION 🚨\n\n"), OwnerName, Lit(" made a promise to complete \""), TaskTitle,
       Lit("\" and broke it. "), HoursOverdue,
       Lit(" overdue. Two escalations ignored. Your accountability buddy has failed the system.")] ],
    [ [Lit("Time for the consequences they agreed to. No more excuses!")],
      [Lit("They agreed to maximum shame for a reason. Time to deliver!")],
      [Lit("This is why they added you as an accountability contact. Don't hold back!")],
      [Lit("Public accountability failure demands public consequences. You know what to do!")] ])

  /** The placeholders the templates use. */
  const TemplateNames: set<string> := {"taskTitle", "ownerName", "contactName", "dueDate", "hoursOverdue"}

  predicate HolesAmong(ts: seq<seq<Segment>>, names: set<string>) {
    forall i, j | 0 <= i < |ts| && 0 <= j < |ts[i]| :: ts[i][j].Hole? ==> ts[i][j].name in names
  }

  predicate LevelHolesAmong(t: LevelTemplates, names: set<string>) {
    HolesAmong(t.subjects, names) && HolesAmong(t.openings, names)
    && HolesAmong(t.shameMessages, names) && HolesAmong(t.callsToAction, names)
  }

  lemma Level1Holes() ensures LevelHolesAmong(Level1, TemplateNames) { }
  lemma Level2Holes() ensures LevelHolesAmong(Level2, TemplateNames) { }
  lemma Level3Holes() ensures LevelHolesAmong(Level3, TemplateNames) { }

  /** Every level offers 3 subjects and openings and 4 shame messages and calls to action. */
  predicate Shaped(t: LevelTemplates) {
    |t.subjects| == 3 && |t.openings| == 3 && |t.shameMessages| == 4 && |t.callsToAction| == 4
  }

  /** `SHAME_MESSAGE_TEMPLATES[level]` for a level that is a key of the table: its
      lists have the sizes above and use only the generator's placeholders. */
  function TemplatesFor(level: int): (t: LevelTemplates)
    requires 1 <= level <= 3
    ensures Shaped(t)
    ensures LevelHolesAmong(t, TemplateNames)
  {
    Level1Holes();
    Level2Holes();
    Level3Holes();
    if level == 1 then Level1 else if level == 2 then Level2 else Level3
  }

  // ---------------------------------------------------------- the pieces

  /** `Math.min(Math.max(level, 1), 3)`. */
  function Clamp(level: int): (l: int)
    ensures 1 <= l <= 3
    ensures 1 <= level <= 3 ==> l == level
    ensures level < 1 ==> l == 1
    ensures level > 3 ==> l == 3
  {
    if level < 1 then 1 else if level > 3 then 3 else level
  }

  /** `selectVariant`: the requested index when it is in range, otherwise the entry
      at the random index `roll` (reduced into range). */
  function SelectVariant<T>(variants: seq<T>, index: Option<int>, roll: nat): (r: T)
    requires |variants| > 0
    ensures r in variants
  {
    if index.Some? && 0 <= index.value < |variants| then variants[index.value]
    else variants[roll % |variants|]
  }

  /** A requested index in range wins over the roll; one out of range leaves the
      choice to the roll. */
  lemma SelectVariantIndex<T>(variants: seq<T>, index: int, roll: nat)
    requires |variants| > 0
    ensures 0 <= index < |variants| ==> SelectVariant(variants, Some(index), roll) == variants[index]
    ensures !(0 <= index < |variants|) ==>
      SelectVariant(variants, Some(index), roll) == SelectVariant(variants, None, roll)
  {
  }

  /** `formatOverdueTime` on a number of minutes: below an hour the minutes, below a
      day the whole hours, from a day on the whole days, each followed by what is left
      over when it is not zero. */
  function FormatOverdueTime(totalMinutes: int): string {
    if totalMinutes < 60 then IntToString(totalMinutes) + " minutes"
    else if totalMinutes < 1440 then NatToString(totalMinutes / 60) + HoursTail(totalMinutes % 60)
    else NatToString(totalMinutes / 1440) + DaysTail((totalMinutes % 1440) / 60)
  }

  /** What a text below a day says after the number of hours. */
  function HoursTail(minutes: nat): string {
    if minutes > 0 then " hours and " + NatToString(minutes) + " minutes" else " hours"
  }

  /** What a text from one day on says after the number of days. */
  function DaysTail(hours: nat): string {
    if hours > 0 then " days and " + NatToString(hours) + " hours" else " days"
  }

  /** The rest of a text below a day gives back its leftover minutes. */
  lemma HoursTailExact(a: nat, b: nat)
    requires HoursTail(a) == HoursTail(b)
    ensures a == b
  {
    if a > 0 && b > 0 {
      var tail := " hours and ";
      assert HoursTail(a)[|tail|..] == NatToString(a) + " minutes";
      assert HoursTail(b)[|tail|..] == NatToString(b) + " minutes";
      NumberPrefix(a, " minutes", b, " minutes");
    }
  }

  /** The rest of a text from one day on gives back its leftover hours. */
  lemma DaysTailExact(a: nat, b: nat)
    requires DaysTail(a) == DaysTail(b)
    ensures a == b
  {
    if a > 0 && b > 0 {
      var tail := " days and ";
      assert DaysTail(a)[|tail|..] == NatToString(a) + " hours";
      assert DaysTail(b)[|tail|..] == NatToString(b) + " hours";
      NumberPrefix(a, " hours", b, " hours");
    }
  }

  /** The whole days and the whole hours left over after them are the whole hours
      counted in days and hours. */
  lemma DaysAndHours(m: int)
    requires m >= 0
    ensures m / 1440 == (m / 60) / 24 && (m % 1440) / 60 == (m / 60) % 24
  {
    var d, r := m / 1440, m % 1440;
    assert m == 60 * (24 * d + r / 60) + r % 60;
    assert m / 60 == 24 * d + r / 60;
  }

  /** From one day on, the leftover minutes are dropped: the text depends only on the
      whole hours. */
  lemma MinutesDroppedAfterADay(m: int)
    requires m >= 1440
    ensures FormatOverdueTime(m) == FormatOverdueTime(m - m % 60)
  {
    var n := m - m % 60;
    assert n / 60 == m / 60 by {
      assert m == 60 * (m / 60) + m % 60;
    }
    DaysAndHours(m);
    DaysAndHours(n);
  }

  /** Below one day the text is exact: two different overdue times never read the
      same. */
  lemma OverdueTextExactBelowADay(m: int, n: int)
    requires 0 <= m < 1440 && 0 <= n < 1440
    requires FormatOverdueTime(m) == FormatOverdueTime(n)
    ensures m == n
  {
    var a := if m < 60 then m else m / 60;
    var b := if n < 60 then n else n / 60;
    var x := if m < 60 then " minutes" else HoursTail(m % 60);
    var y := if n < 60 then " minutes" else HoursTail(n % 60);
    assert FormatOverdueTime(m) == NatToString(a) + x;
    assert FormatOverdueTime(n) == NatToString(b) + y;
    assert x[0] == ' ' && y[0] == ' ';
    NumberPrefix(a, x, b, y);
    assert x[1] == 'm' <==> m < 60;
    assert y[1] == 'm' <==> n < 60;
    if m >= 60 && n >= 60 {
      HoursTailExact(m % 60, n % 60);
    }
  }

  /** Two texts from one day on that read the same have the same whole hours. */
  lemma SameDaysTextSameHours(m: int, n: int)
    requires m >= 1440 && n >= 1440
    requires FormatOverdueTime(m) == FormatOverdueTime(n)
    ensures m / 60 == n / 60
  {
    var x, y := DaysTail((m % 1440) / 60), DaysTail((n % 1440) / 60);
    assert x[0] == ' ' && y[0] == ' ';
    NumberPrefix(m / 1440, x, n / 1440, y);
    DaysTailExact((m % 1440) / 60, (n % 1440) / 60);
    DaysAndHours(m);
    DaysAndHours(n);
  }

  /** From one day on the text is exact to the hour: two overdue times read the same
      exactly when they have the same whole hours. */
  lemma OverdueTextExactFromADay(m: int, n: int)
    requires m >= 1440 && n >= 1440
    ensures FormatOverdueTime(m) == FormatOverdueTime(n) <==> m / 60 == n / 60
  {
    if FormatOverdueTime(m) == FormatOverdueTime(n) {
      SameDaysTextSameHours(m, n);
    }
    if m / 60 == n / 60 {
      DaysAndHours(m);
      DaysAndHours(n);
    }
  }

  /** Below an hour the text counts minutes. */
  lemma MinutesExample()
    ensures FormatOverdueTime(45) == "45 minutes"
  {
    assert NatToString(45) == "45" by {
      assert NatToString(4) == "4";
    }
  }

  /** Below a day the text counts hours, then the minutes left over. */
  lemma HoursAndMinutesExample()
    ensures FormatOverdueTime(125) == "2 hours and 5 minutes"
  {
    calc {
      FormatOverdueTime(125);
      NatToString(2) + HoursTail(5);
      { assert NatToString(2) == "2"; assert NatToString(5) == "5"; }
      "2" + (" hours and " + "5" + " minutes");
      "2 hours and 5 minutes";
    }
  }

  /** Whole hours below a day are counted alone. */
  lemma WholeHoursExample()
    ensures FormatOverdueTime(120) == "2 hours"
  {
    calc {
      FormatOverdueTime(120);
      NatToString(2) + HoursTail(0);
      { assert NatToString(2) == "2"; }
      "2" + " hours";
      "2 hours";
    }
  }

  /** From a day on the text counts days, then the hours left over. */
  lemma DaysAndHoursExample()
    ensures FormatOverdueTime(1500) == "1 days and 1 hours"
  {
    calc {
      FormatOverdueTime(1500);
      NatToString(1) + DaysTail(1);
      { assert NatToString(1) == "1"; }
      "1" + (" days and " + "1" + " hours");
      "1 days and 1 hours";
    }
  }

  /** Whole days are counted alone. */
  lemma WholeDaysExample()
    ensures FormatOverdueTime(2880) == "2 days"
  {
    calc {
      FormatOverdueTime(2880);
      NatToString(2) + DaysTail(0);
      { assert NatToString(2) == "2"; }
      "2" + " days";
      "2 days";
    }
  }

  /** `getIntensityLabel`. */
  function IntensityLabel(level: int): (r: string)
    ensures 1 <= level <= 3 <==> r != "unknown"
  {
    if level == 1 then "friendly nudge"
    else if level == 2 then "serious concern"
    else if level == 3 then "maximum shame"
    else "unknown"
  }

  /** `getShameAdjectives`: the level's list, level 1's for an unknown level. */
  function ShameAdjectives(level: int): (r: seq<string>)
    ensures |r| == 4
  {
    if level == 2 then ["seriously behind", "chronically late", "unreliable", "struggling"]
    else if level == 3 then ["completely failed", "utterly unreliable", "broken their word", "accountability failure"]
    else ["behind", "overdue", "delayed", "late"]
  }

  /** `getEscalationEmojis`: the level's list, level 1's for an unknown level. */
  function EscalationEmojis(level: int): (r: seq<string>)
    ensures |r| == 4 || |r| == 5
  {
    if level == 2 then ["🚨", "🔥", "⚠️", "😟"]
    else if level == 3 then ["💀", "🔥", "⚡", "💯", "🚨"]
    else ["⏰", "🔔", "💙", "🤝"]
  }

  /** Unknown levels fall back to the level-1 lists. */
  lemma UnknownLevelFallsBack(level: int)
    requires level != 1 && level != 2 && level != 3
    ensures ShameAdjectives(level) == ShameAdjectives(1)
    ensures EscalationEmojis(level) == EscalationEmojis(1)
  {
  }

  // ---------------------------------------------------------- substitution

  /** `value || ""`: an undefined, null or empty value becomes the empty string. */
  function Values(vars: seq<(string, Option<string>)>): (r: seq<(string, string)>)
    ensures |r| == |vars|
    ensures forall i | 0 <= i < |vars| :: r[i].0 == vars[i].0
    ensures forall i | 0 <= i < |vars| :: r[i].1 == (if vars[i].1.Some? then vars[i].1.value else "")
  {
    seq(|vars|, i requires 0 <= i < |vars| => (vars[i].0, if vars[i].1.Some? then vars[i].1.value else ""))
  }

  /** `replaceVariables`: each variable in turn replaces every `{key}` in the text. */
  method ReplaceVariables(template: string, vars: seq<(string, Option<string>)>) returns (result: string)
    ensures result == ReplaceSeq(Single, template, Values(vars))
  {
    ghost var all := Values(vars);
    result := template;
    var i := 0;
    while i < |vars|
      invariant 0 <= i <= |vars|
      invariant ReplaceSeq(Single, result, all[i..]) == ReplaceSeq(Single, template, all)
    {
      var (key, value) := vars[i];
      var text := if value.Some? then value.value else "";
      assert all[i..][0] == (key, text) && all[i..][1..] == all[i + 1..];
      result := ReplaceAll(result, Token(Single, key), text);
      i := i + 1;
    }
    assert all[i..] == [];
  }

  /** The context the generator is called with; `None` is an absent argument. */
  datatype ShameInput = ShameInput(
    taskTitle: Option<string>,
    ownerName: Option<string>,
    ownerEmail: Option<string>,
    contactName: Option<string>,
    dueDateLabel: string,          // the due date as `toLocaleDateString` renders it
    minutesOverdue: int,
    relationship: Option<string>,
    customMessage: Option<string>)

  /** The variables object, in its key order; `relationship` defaults to "friend" and
      `customMessage` to "" when absent. */
  function Variables(input: ShameInput): (vars: seq<(string, Option<string>)>)
    ensures |vars| == 8
  {
    [("taskTitle", input.taskTitle), ("ownerName", input.ownerName), ("ownerEmail", input.ownerEmail),
     ("contactName", input.contactName), ("dueDate", Some(input.dueDateLabel)),
     ("hoursOverdue", Some(FormatOverdueTime(input.minutesOverdue))),
     ("relationship", Some(if input.relationship.Some? then input.relationship.value else "friend")),
     ("customMessage", Some(if input.customMessage.Some? then input.customMessage.value else ""))]
  }

  const VariableNames: set<string> :=
    {"taskTitle", "ownerName", "ownerEmail", "contactName", "dueDate", "hoursOverdue", "relationship", "customMessage"}

  lemma VariableKeys(input: ShameInput)
    ensures Keys(Values(Variables(input))) == VariableNames
  {
    var vs := Values(Variables(input));
    assert vs[0].0 == "taskTitle" && vs[1].0 == "ownerName" && vs[2].0 == "ownerEmail";
    assert vs[3].0 == "contactName" && vs[4].0 == "dueDate" && vs[5].0 == "hoursOverdue";
    assert vs[6].0 == "relationship" && vs[7].0 == "customMessage";
  }

  // -------------------------------------------------------------- generator

  datatype ShameContent = ShameContent(
    subject: string, opening: string, shameMessage: string, callToAction: string,
    level: int, intensity: string)

  /** The random indices the four `selectVariant` calls would draw. */
  datatype Rolls = Rolls(subject: nat, opening: nat, shameMessage: nat, callToAction: nat)

  /** The four templates chosen from a level's lists. */
  function Chosen(t: LevelTemplates, variant: Option<int>, rolls: Rolls): (c: seq<seq<Segment>>)
    requires Shaped(t)
    ensures |c| == 4
    ensures c[0] in t.subjects && c[1] in t.openings && c[2] in t.shameMessages && c[3] in t.callsToAction
  {
    [SelectVariant(t.subjects, variant, rolls.subject), SelectVariant(t.openings, variant, rolls.opening),
     SelectVariant(t.shameMessages, variant, rolls.shameMessage),
     SelectVariant(t.callsToAction, variant, rolls.callToAction)]
  }

  /** A template with each `{name}` replaced by the value of that variable. */
  function Fillin(template: seq<Segment>, input: ShameInput): string {
    ReplaceSeq(Single, Render(Single, template), Values(Variables(input)))
  }

  /** `generateShameMessage`. */
  function GenerateShameMessage(input: ShameInput, escalationLevel: int, variant: Option<int>, rolls: Rolls): (r: ShameContent)
    ensures r.level == Clamp(escalationLevel)
    ensures r.intensity != "unknown"
    ensures var c := Chosen(TemplatesFor(r.level), variant, rolls);
      && r.subject == Fillin(c[0], input) && r.opening == Fillin(c[1], input)
      && r.shameMessage == Fillin(c[2], input) && r.callToAction == Fillin(c[3], input)
  {
    var level := Clamp(escalationLevel);
    var c := Chosen(TemplatesFor(level), variant, rolls);
    ShameContent(Fillin(c[0], input), Fillin(c[1], input), Fillin(c[2], input), Fillin(c[3], input),
                 level, IntensityLabel(level))
  }

  /** With variant index 3, the shame message and call to action are the fourth
      entries whatever the rolls, while the subject and opening (3 entries each) are
      left to the rolls. */
  lemma VariantThree(t: LevelTemplates, rolls: Rolls)
    requires Shaped(t)
    ensures Chosen(t, Some(3), rolls)
      == [t.subjects[rolls.subject % 3], t.openings[rolls.opening % 3], t.shameMessages[3], t.callsToAction[3]]
  {
  }

  /** A chosen template uses only the template placeholders. */
  lemma ChosenHoles(t: LevelTemplates, variant: Option<int>, rolls: Rolls, k: nat)
    requires Shaped(t) && LevelHolesAmong(t, TemplateNames)
    requires k < 4
    ensures HoleNames(Chosen(t, variant, rolls)[k]) <= TemplateNames
  {
    var tm := Chosen(t, variant, rolls)[k];
    var ts := if k == 0 then t.subjects else if k == 1 then t.openings
              else if k == 2 then t.shameMessages else t.callsToAction;
    assert HolesAmong(ts, TemplateNames);
    var i :| 0 <= i < |ts| && ts[i] == tm;
    forall n | n in HoleNames(tm) ensures n in TemplateNames {
      var j :| 0 <= j < |tm| && tm[j].Hole? && tm[j].name == n;
      assert ts[i][j].Hole?;
    }
  }

  /** So filling a chosen template replaces every placeholder by its variable's value;
      when the template text carries no stray braces and the values none either, no
      `{…}` token is left. */
  lemma ChosenFilled(t: LevelTemplates, input: ShameInput, variant: Option<int>, rolls: Rolls, k: nat)
    requires Shaped(t) && LevelHolesAmong(t, TemplateNames)
    requires k < 4
    requires WellFormed(Chosen(t, variant, rolls)[k])
    requires KeysUsable(Values(Variables(input)))
    ensures var tm := Chosen(t, variant, rolls)[k];
      Fillin(tm, input) == Fill(Single, tm, Values(Variables(input)))
      && BraceFree(Fillin(tm, input))
  {
    var tm := Chosen(t, variant, rolls)[k];
    var vars := Values(Variables(input));
    ReplaceSeqFills(Single, tm, vars);
    ChosenHoles(t, variant, rolls, k);
    VariableKeys(input);
    FillLeavesNoPlaceholder(Single, tm, vars);
  }
}
