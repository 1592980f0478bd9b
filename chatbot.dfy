/**
 * The chatbot service: the stand-in for the language model picks its reply
 * by the first keyword found in the user's message; the system prompt is
 * built from the user's profile when the caller asks for context; a
 * profile's age is counted in completed years. The profile lookup, the
 * clock and the message store are inputs.
 */
module Chatbot {
  import opened Wrappers
  import opened Text

  const THANKS := "Thank you for your message! "
  const WORKOUT_REPLY := "I'd be happy to help you with workout recommendations. Based on your fitness goals, I suggest starting with a balanced routine that includes both cardio and strength training."
  const NUTRITION_REPLY := "Great question about nutrition! A balanced diet with proper macronutrients is key to achieving your fitness goals. Make sure to include lean proteins, complex carbs, and healthy fats."
  const MEMBERSHIP_REPLY := "I can help you with membership information. We have various plans available to suit different needs and budgets. Would you like me to show you the available options?"
  const GYM_REPLY := "We have several gym locations with state-of-the-art equipment and certified trainers. Each location offers unique amenities and classes."
  const GENERAL_REPLY := "I'm here to help you with your fitness journey! Feel free to ask me about workouts, nutrition, memberships, or any fitness-related questions."

  /** The subjects the stand-in model recognises, in the order it tries them. */
  datatype Topic = Workout | Nutrition | Membership | Gym | General

  function Rank(t: Topic): nat {
    match t
    case Workout => 0
    case Nutrition => 1
    case Membership => 2
    case Gym => 3
    case General => 4
  }

  /** The lower-cased message mentions a keyword of `t`; every message fits the general topic. */
  predicate Mentions(lower: string, t: Topic) {
    match t
    case Workout => Contains(lower, "workout")
    case Nutrition => Contains(lower, "nutrition") || Contains(lower, "diet")
    case Membership => Contains(lower, "membership")
    case Gym => Contains(lower, "gym")
    case General => true
  }

  /** The chain of `includes` tests on the lower-cased message. */
  function ReplyTopic(message: string): Topic {
    var lower := ToLower(message);
    if Contains(lower, "workout") then Workout
    else if Contains(lower, "nutrition") || Contains(lower, "diet") then Nutrition
    else if Contains(lower, "membership") then Membership
    else if Contains(lower, "gym") then Gym
    else General
  }

  function TopicReply(t: Topic): string {
    match t
    case Workout => WORKOUT_REPLY
    case Nutrition => NUTRITION_REPLY
    case Membership => MEMBERSHIP_REPLY
    case Gym => GYM_REPLY
    case General => GENERAL_REPLY
  }

  /** The stand-in model's answer to the last message of a conversation. */
  function MockReply(message: string): (r: string)
    ensures StartsWith(r, THANKS)
    ensures r[|THANKS|..] == TopicReply(ReplyTopic(message))
  {
    THANKS + TopicReply(ReplyTopic(message))
  }

  /**
   * The reply's topic is the first one, in priority order, that the
   * lower-cased message mentions: it is mentioned and no earlier topic is.
   */
  lemma ReplyIsFirstMentioned(message: string)
    ensures Mentions(ToLower(message), ReplyTopic(message))
    ensures forall t :: Rank(t) < Rank(ReplyTopic(message)) ==> !Mentions(ToLower(message), t)
  {
    var lower := ToLower(message);
    forall t | Rank(t) < Rank(ReplyTopic(message)) ensures !Mentions(lower, t) {
      match t
      case Workout =>
      case Nutrition =>
      case Membership =>
      case Gym =>
      case General =>
    }
  }

  lemma LowerCharIdempotent(c: char)
    ensures LowerChar(LowerChar(c)) == LowerChar(c)
  {
  }

  /** The keywords are matched without regard to case: lower-casing the message first changes nothing. */
  lemma ReplyIgnoresCase(message: string)
    ensures MockReply(ToLower(message)) == MockReply(message)
  {
    var lower := ToLower(message);
    forall i | 0 <= i < |lower| ensures ToLower(lower)[i] == lower[i] {
      LowerCharIdempotent(message[i]);
    }
    assert ToLower(lower) == lower;
  }

  /** A calendar day as `Date` reports it: the month counts from 0, as `getMonth` does. */
  datatype Day = Day(year: int, month: int, date: int)

  /** `a` falls before `b`. */
  predicate Before(a: Day, b: Day) {
    a.year < b.year || (a.year == b.year && (a.month < b.month || (a.month == b.month && a.date < b.date)))
  }

  /** The `n`-th anniversary of `d`. */
  function Anniversary(d: Day, n: int): Day {
    Day(d.year + n, d.month, d.date)
  }

  /**
   * `calculateAge(birthDate)` on day `today`: no birth date gives `null`;
   * otherwise the difference of the years, one less when this year's
   * birthday is still to come.
   */
  function CalculateAge(birth: Option<Day>, today: Day): (age: Option<int>)
    ensures age.None? <==> birth.None?
  {
    match birth
    case None => None
    case Some(b) =>
      var years := today.year - b.year;
      var monthDiff := today.month - b.month;
      if monthDiff < 0 || (monthDiff == 0 && today.date < b.date) then Some(years - 1) else Some(years)
  }

  /**
   * The age is the number of completed years: the birthday's anniversary
   * for that age has come, and the next one has not.
   */
  lemma AgeIsCompletedYears(b: Day, today: Day)
    ensures var age := CalculateAge(Some(b), today).value;
            !Before(today, Anniversary(b, age)) && Before(today, Anniversary(b, age + 1))
  {
  }

  /** The profile columns the context is built from; `None` is a null column. */
  datatype Profile = Profile(
    dateOfBirth: Option<Day>,
    gender: Option<string>,
    heightCm: Option<int>,
    weightKg: Option<int>,
    primaryFitnessGoal: Option<string>,
    dietaryPreferences: Option<seq<string>>,
    allergies: Option<seq<string>>)

  datatype UserContext = UserContext(
    age: Option<int>,
    gender: Option<string>,
    heightCm: Option<int>,
    weightKg: Option<int>,
    fitnessGoal: Option<string>,
    dietaryPreferences: Option<seq<string>>,
    allergies: Option<seq<string>>)

  /**
   * `getUserContext`, given what `findProfileByUserId` did: a failure or a
   * missing profile gives `null`; otherwise the profile's fields, with the
   * birth date turned into an age.
   */
  function GetUserContext(lookup: Result<Option<Profile>, string>, today: Day): (c: Option<UserContext>)
    ensures c.Some? <==> lookup.Success? && lookup.value.Some?
    ensures c.Some? ==>
              var p := lookup.value.value;
              && c.value.age == CalculateAge(p.dateOfBirth, today)
              && c.value.gender == p.gender && c.value.heightCm == p.heightCm && c.value.weightKg == p.weightKg
              && c.value.fitnessGoal == p.primaryFitnessGoal
              && c.value.dietaryPreferences == p.dietaryPreferences && c.value.allergies == p.allergies
  {
    match lookup
    case Failure(_) => None
    case Success(None) => None
    case Success(Some(p)) =>
      Some(UserContext(CalculateAge(p.dateOfBirth, today), p.gender, p.heightCm, p.weightKg,
                       p.primaryFitnessGoal, p.dietaryPreferences, p.allergies))
  }

  const BASE_PROMPT := "You are FitBot, a helpful AI fitness assistant for Fitflix, a premium fitness platform. You provide personalized advice on workouts, nutrition, and wellness. Be encouraging, knowledgeable, and always prioritize user safety."
  const CONTEXT_HEADER := "\n\nUser Context:"
  const CONTEXT_FOOTER := "\n\nUse this context to provide personalized recommendations, but always encourage consulting with healthcare professionals for medical advice."

  /** JavaScript truthiness of an optional number, string or list (an empty list is truthy). */
  predicate NumberSet(v: Option<int>) {
    v.Some? && v.value != 0
  }

  predicate TextSet(v: Option<string>) {
    v.Some? && v.value != ""
  }

  /** `list && list.length > 0`. */
  predicate ListSet(v: Option<seq<string>>) {
    v.Some? && |v.value| > 0
  }

  function Line(name: string, value: string): string {
    "\n- " + name + ": " + value
  }

  function NumberLine(name: string, v: Option<int>, unit: string): seq<string> {
    if NumberSet(v) then [Line(name, IntToString(v.value) + unit)] else []
  }

  function TextLine(name: string, v: Option<string>): seq<string> {
    if TextSet(v) then [Line(name, v.value)] else []
  }

  function ListLine(name: string, v: Option<seq<string>>): seq<string> {
    if ListSet(v) then [Line(name, Join(v.value, ", "))] else []
  }

  /** The lines of the user context, one per field that is set, in the fixed order. */
  function ContextLines(c: UserContext): seq<string> {
    NumberLine("Age", c.age, " years old")
    + TextLine("Gender", c.gender)
    + NumberLine("Height", c.heightCm, "cm")
    + NumberLine("Weight", c.weightKg, "kg")
    + TextLine("Fitness Goal", c.fitnessGoal)
    + ListLine("Dietary Preferences", c.dietaryPreferences)
    + ListLine("Allergies", c.allergies)
  }

  function Concat(lines: seq<string>): string {
    if lines == [] then "" else lines[0] + Concat(lines[1..])
  }

  lemma {:induction false} ConcatAppend(a: seq<string>, b: seq<string>)
    ensures Concat(a + b) == Concat(a) + Concat(b)
  {
    if a != [] {
      assert (a + b)[1..] == a[1..] + b;
      ConcatAppend(a[1..], b);
    } else {
      assert a + b == b;
    }
  }

  /** Every line occurs in the concatenation, right after the lines before it. */
  lemma ConcatHoldsEach(lines: seq<string>, i: int)
    requires 0 <= i < |lines|
    ensures OccursAt(Concat(lines), lines[i], |Concat(lines[..i])|)
  {
    assert lines == lines[..i] + [lines[i]] + lines[i + 1..];
    ConcatAppend(lines[..i] + [lines[i]], lines[i + 1..]);
    ConcatAppend(lines[..i], [lines[i]]);
    assert Concat([lines[i]]) == lines[i] by {
      assert [lines[i]][1..] == [];
    }
  }

  /** `generateSystemPrompt(contextData)`. */
  function GenerateSystemPrompt(context: Option<UserContext>): (prompt: string)
    ensures StartsWith(prompt, BASE_PROMPT)
    ensures context.None? <==> prompt == BASE_PROMPT
  {
    match context
    case None => BASE_PROMPT
    case Some(c) =>
      StartsWithAppended(BASE_PROMPT, CONTEXT_HEADER, Concat(ContextLines(c)), CONTEXT_FOOTER);
      BASE_PROMPT + CONTEXT_HEADER + Concat(ContextLines(c)) + CONTEXT_FOOTER
  }

  /** The context with every falsy field replaced by a missing one. */
  function WithoutFalsy(c: UserContext): UserContext {
    UserContext(
      if NumberSet(c.age) then c.age else None,
      if TextSet(c.gender) then c.gender else None,
      if NumberSet(c.heightCm) then c.heightCm else None,
      if NumberSet(c.weightKg) then c.weightKg else None,
      if TextSet(c.fitnessGoal) then c.fitnessGoal else None,
      if ListSet(c.dietaryPreferences) then c.dietaryPreferences else None,
      if ListSet(c.allergies) then c.allergies else None)
  }

  /** A falsy field (an age of 0, an empty string, an empty list) is left out exactly as a missing one is. */
  lemma FalsyFieldsOmitted(c: UserContext)
    ensures GenerateSystemPrompt(Some(c)) == GenerateSystemPrompt(Some(WithoutFalsy(c)))
  {
  }

  /** An occurrence inside the middle part is an occurrence in the whole, shifted by the head. */
  lemma OccursShifted(head: string, mid: string, tail: string, line: string, j: int)
    requires OccursAt(mid, line, j)
    ensures OccursAt(head + mid + tail, line, |head| + j)
  {
    var whole := head + mid + tail;
    assert whole[|head| + j..|head| + j + |line|] == mid[j..j + |line|];
  }

  /** With context, the prompt opens with the header, closes with the footer, and holds every context line. */
  lemma ContextShown(c: UserContext)
    ensures var prompt := GenerateSystemPrompt(Some(c));
            && StartsWith(prompt, BASE_PROMPT + CONTEXT_HEADER)
            && prompt[|prompt| - |CONTEXT_FOOTER|..] == CONTEXT_FOOTER
            && (forall line :: line in ContextLines(c) ==> Contains(prompt, line))
  {
    var lines := ContextLines(c);
    var head := BASE_PROMPT + CONTEXT_HEADER;
    var prompt := GenerateSystemPrompt(Some(c));
    assert prompt == head + Concat(lines) + CONTEXT_FOOTER;
    forall line | line in lines ensures Contains(prompt, line) {
      var i :| 0 <= i < |lines| && lines[i] == line;
      ConcatHoldsEach(lines, i);
      OccursShifted(head, Concat(lines), CONTEXT_FOOTER, line, |Concat(lines[..i])|);
    }
  }

  /** A set age, and non-empty dietary preferences and allergies, each get their line, lists joined with `", "`. */
  lemma SetFieldsListed(c: UserContext)
    ensures NumberSet(c.age) ==> Line("Age", IntToString(c.age.value) + " years old") in ContextLines(c)
    ensures ListSet(c.dietaryPreferences) ==>
              Line("Dietary Preferences", Join(c.dietaryPreferences.value, ", ")) in ContextLines(c)
    ensures ListSet(c.allergies) ==> Line("Allergies", Join(c.allergies.value, ", ")) in ContextLines(c)
  {
  }

  datatype ChatMessage = ChatMessage(role: string, content: string)

  /** The row `createChatbotMessage` stores. */
  datatype StoredMessage = StoredMessage(
    userId: string, message: string, response: string, contextData: Option<UserContext>, responseTimeMs: int)

  datatype ChatTurn = ChatTurn(prompt: seq<ChatMessage>, stored: StoredMessage, messageId: string, response: string)

  /**
   * `processMessage`: the profile is looked up only when `includeContext`
   * is set; the system prompt and the user's message go to the model; the
   * exchange is stored (a store failure propagates) and the stored row's id
   * is returned with the reply.
   */
  function ProcessMessage(
    userId: string, message: string, includeContext: bool,
    lookup: Result<Option<Profile>, string>, today: Day, store: Result<string, string>)
    : (r: Result<ChatTurn, string>)
    ensures r.Failure? <==> store.Failure?
    ensures r.Success? ==>
              && r.value.response == MockReply(message)
              && r.value.messageId == store.value
              && r.value.stored == StoredMessage(userId, message, r.value.response, r.value.stored.contextData, 500)
              && (r.value.stored.contextData.Some? <==> includeContext && lookup.Success? && lookup.value.Some?)
              && r.value.stored.contextData == (if includeContext then GetUserContext(lookup, today) else None)
              && |r.value.prompt| == 2
              && r.value.prompt[0] == ChatMessage("system", GenerateSystemPrompt(r.value.stored.contextData))
              && r.value.prompt[|r.value.prompt| - 1] == ChatMessage("user", message)
  {
    var contextData := if includeContext then GetUserContext(lookup, today) else None;
    var messages := [ChatMessage("system", GenerateSystemPrompt(contextData)), ChatMessage("user", message)];
    var botResponse := MockReply(messages[|messages| - 1].content);
    match store
    case Failure(e) => Failure(e)
    case Success(id) =>
      Success(ChatTurn(messages, StoredMessage(userId, message, botResponse, contextData, 500), id, botResponse))
  }

  /** Without context the profile is never consulted, and the reply never depends on it. */
  lemma ContextOnlyWhenAsked(
    userId: string, message: string, lookup1: Result<Option<Profile>, string>, lookup2: Result<Option<Profile>, string>,
    includeContext: bool, today: Day, store: Result<string, string>)
    ensures ProcessMessage(userId, message, false, lookup1, today, store) ==
            ProcessMessage(userId, message, false, lookup2, today, store)
    ensures ProcessMessage(userId, message, false, lookup1, today, store).Success? ==>
              ProcessMessage(userId, message, false, lookup1, today, store).value.prompt[0].content == BASE_PROMPT
    ensures ProcessMessage(userId, message, includeContext, lookup1, today, store).Success? ==>
              ProcessMessage(userId, message, includeContext, lookup1, today, store).value.response ==
              ProcessMessage(userId, message, false, lookup2, today, store).value.response
  {
  }
}
