/**
  Conditional tasks: shouldShowTask, and the what-if test that predicts it for a value that has
  not been stored yet.
 */
module Visibility {
  import opened Wrappers
  import opened InstanceIds
  import opened States
  import opened Forest

  type Answers = map<InstanceId, Answer>

  /** The value a condition compares with; a void one is None in Condition. */
  datatype Wanted = Word(text: string) | Flag(flag: bool)

  datatype Condition = Condition(taskId: string, operator: string, value: Option<Wanted>)

  datatype Dependency = Conditional(condition: Option<Condition>, action: string) | OtherKind

  /** An answer value after normalizeValue. */
  datatype Normal = Nothing | Simple(wanted: Wanted) | Many(choices: seq<string>) | Picture

  function LowerChar(c: char): char {
    if 'A' <= c <= 'Z' then (c as int - 'A' as int + 'a' as int) as char else c
  }

  function Lower(s: string): string {
    seq(|s|, i requires 0 <= i < |s| => LowerChar(s[i]))
  }

  function NormalizeText(s: string): Normal {
    if Lower(s) == "true" then Simple(Flag(true))
    else if Lower(s) == "false" then Simple(Flag(false))
    else if s == "null" || s == "" then Nothing
    else Simple(Word(s))
  }

  function Normalize(v: AnswerValue): Normal {
    match v
    case Text(s) => NormalizeText(s)
    case Choices(choices) => Many(choices)
    case Image(_) => Picture
    case Cleared => Nothing
  }

  /** getAnswer: an empty text reads as no answer. */
  function GetAnswer(answers: Answers, id: InstanceId): AnswerValue {
    if id in answers && answers[id].value != Text("") then answers[id].value else Cleared
  }

  /** The first instance of the task in the same group, in the order of the instance map. */
  function FindRelated(f: Instances, order: seq<InstanceId>, taskId: string,
                       current: InstanceId): (r: Option<InstanceId>)
    ensures r.Some? ==>
              r.value in f && current in f && r.value.taskId == taskId && f[r.value].groupId == f[current].groupId
    ensures r.None? && current in f ==>
              forall y | y in order && y in f && y.taskId == taskId :: f[y].groupId != f[current].groupId
  {
    if order == [] || current !in f then None
    else if order[0] in f && order[0].taskId == taskId && f[order[0]].groupId == f[current].groupId then Some(order[0])
    else FindRelated(f, order[1..], taskId, current)
  }

  predicate Supported(operator: string) {
    operator == "equals" || operator == "any" || operator == "contains"
  }

  /** Whether the condition is met; an operator that is not supported is never met. */
  predicate Met(operator: string, normal: Normal, value: Wanted) {
    if operator == "equals" then normal == Simple(value)
    else if operator == "any" then true
    else if operator == "contains" then
      if normal.Many? then value.Word? && value.text in normal.choices else normal == Simple(value)
    else false
  }

  /** The word in any mixture of cases; `capitals` is the same word in capitals. */
  predicate Spells(s: string, word: string, capitals: string) {
    |s| == |word| == |capitals| && forall i | 0 <= i < |s| :: s[i] == word[i] || s[i] == capitals[i]
  }

  /**
    What a condition asks of the stored answer: "any" nothing; "equals" a text that is the word, or
    spells the flag; "contains" the same, or a choice that is the word. The texts "null" and "" and
    those that spell a flag are no words.
   */
  predicate Satisfied(answers: Answers, id: InstanceId, operator: string, value: Wanted) {
    || operator == "any"
    || ((operator == "equals" || operator == "contains") && id in answers && answers[id].value.Text? &&
        var s := answers[id].value.text;
        match value
        case Flag(true) => Spells(s, "true", "TRUE")
        case Flag(false) => Spells(s, "false", "FALSE")
        case Word(w) =>
          s == w && s != "" && s != "null" && !Spells(s, "true", "TRUE") && !Spells(s, "false", "FALSE"))
    || (operator == "contains" && id in answers && answers[id].value.Choices? && value.Word? &&
        value.text in answers[id].value.choices)
  }

  lemma LowerSpells(s: string, word: string, capitals: string)
    requires (word == "true" && capitals == "TRUE") || (word == "false" && capitals == "FALSE")
    ensures Lower(s) == word <==> Spells(s, word, capitals)
  {
    if Lower(s) == word {
      forall i | 0 <= i < |s| ensures s[i] == word[i] || s[i] == capitals[i] {
        assert Lower(s)[i] == LowerChar(s[i]) == word[i];
      }
    }
    if Spells(s, word, capitals) {
      assert forall i | 0 <= i < |s| :: Lower(s)[i] == LowerChar(s[i]) == word[i];
    }
  }

  /** What reading, normalising and comparing come to. */
  lemma MetIffSatisfied(answers: Answers, id: InstanceId, operator: string, value: Wanted)
    ensures Met(operator, Normalize(GetAnswer(answers, id)), value) <==> Satisfied(answers, id, operator, value)
  {
    if id in answers && answers[id].value.Text? {
      LowerSpells(answers[id].value.text, "true", "TRUE");
      LowerSpells(answers[id].value.text, "false", "FALSE");
    }
  }

  // ---- shouldShowTask ----

  datatype Verdict = Show | Hide | VoidValue | Unsupported

  /** What one dependency decides, if anything. */
  function Decides(f: Instances, order: seq<InstanceId>, answers: Answers, current: InstanceId,
                   dep: Dependency): Option<Verdict> {
    if dep.OtherKind? then None
    else if dep.condition.None? then Some(Show)
    else
      var c := dep.condition.value;
      if c.value.None? then Some(VoidValue)
      else
        var related := FindRelated(f, order, c.taskId, current);
        if related.None? then None
        else if !Supported(c.operator) then Some(Unsupported)
        else if dep.action == "show" && !Met(c.operator, Normalize(GetAnswer(answers, related.value)),
                                             c.value.value) then Some(Hide)
        else None
  }

  /** v is the decision of the first dependency that decides, or Show. */
  ghost predicate FirstDecision(f: Instances, order: seq<InstanceId>, answers: Answers, current: InstanceId,
                                deps: seq<Dependency>,
                                v: Verdict) {
    || (v == Show && forall k | 0 <= k < |deps| :: Decides(f, order, answers, current, deps[k]).None?)
    || exists k :: 0 <= k < |deps| && Decides(f, order, answers, current, deps[k]) == Some(v)
                   && forall j | 0 <= j < k :: Decides(f, order, answers, current, deps[j]).None?
  }

  method ShouldShowTask(f: Instances, order: seq<InstanceId>, answers: Answers, current: InstanceId,
                        deps: seq<Dependency>)
    returns (v: Verdict)
    ensures if current in f then FirstDecision(f, order, answers, current, deps, v) else v == Show
  {
    if deps == [] || current !in f {
      return Show;
    }
    for k := 0 to |deps|
      invariant forall j | 0 <= j < k :: Decides(f, order, answers, current, deps[j]).None?
    {
      var dependency := deps[k];
      if dependency.Conditional? {
        if dependency.condition.None? {
          return Show;
        }
        var c := dependency.condition.value;
        if c.value.None? {
          return VoidValue;
        }
        var related := FindRelated(f, order, c.taskId, current);
        if related.Some? {
          var conditionValue := GetAnswer(answers, related.value);
          var normalizedValue := Normalize(conditionValue);
          var conditionMet := false;
          if c.operator == "equals" {
            conditionMet := normalizedValue == Simple(c.value.value);
          } else if c.operator == "any" {
            conditionMet := true;
          } else if c.operator == "contains" {
            if !normalizedValue.Many? {
              conditionMet := normalizedValue == Simple(c.value.value);
            } else {
              conditionMet := c.value.value.Word? && c.value.value.text in normalizedValue.choices;
            }
          } else {
            return Unsupported;
          }
          if dependency.action == "show" && !conditionMet {
            return Hide;
          }
        }
      }
    }
    v := Show;
  }

  // ---- wouldBeHiddenUnder ----

  /** The dependency hides the task if the overridden instance had the given value. */
  predicate HidesUnder(f: Instances, order: seq<InstanceId>, answers: Answers, current: InstanceId,
                       overridden: InstanceId,
                       value: AnswerValue, dep: Dependency) {
    && dep.Conditional? && dep.condition.Some? && dep.condition.value.value.Some?
    && var c := dep.condition.value;
       var related := FindRelated(f, order, c.taskId, current);
       && related.Some? && dep.action == "show"
       && var raw := if related.value == overridden then value else GetAnswer(answers, related.value);
          !Met(c.operator, Normalize(raw), c.value.value)
  }

  method WouldBeHiddenUnder(f: Instances, order: seq<InstanceId>, answers: Answers, current: InstanceId,
                            deps: seq<Dependency>,
                            overridden: InstanceId, value: AnswerValue) returns (hidden: bool)
    ensures hidden <==> exists k ::
              0 <= k < |deps| && HidesUnder(f, order, answers, current, overridden, value, deps[k])
  {
    for k := 0 to |deps|
      invariant forall j | 0 <= j < k :: !HidesUnder(f, order, answers, current, overridden, value, deps[j])
    {
      var dep := deps[k];
      if dep.Conditional? && dep.condition.Some? && dep.condition.value.value.Some? {
        var c := dep.condition.value;
        var related := FindRelated(f, order, c.taskId, current);
        if related.Some? {
          var raw := if related.value == overridden then value else GetAnswer(answers, related.value);
          var normalized := Normalize(raw);
          var conditionMet := false;
          if c.operator == "equals" {
            conditionMet := normalized == Simple(c.value.value);
          } else if c.operator == "any" {
            conditionMet := true;
          } else if c.operator == "contains" {
            if normalized.Many? {
              conditionMet := c.value.value.Word? && c.value.value.text in normalized.choices;
            } else {
              conditionMet := normalized == Simple(c.value.value);
            }
          }
          if dep.action == "show" && !conditionMet {
            return true;
          }
        }
      }
    }
    hidden := false;
  }

  // ---- The two agree ----

  /** setAnswer. */
  function Written(answers: Answers, id: InstanceId, value: AnswerValue, stamp: string): Answers {
    answers[id := Answer(value, stamp)]
  }

  /** Reading a value back normalises it like the value itself, even an empty text. */
  lemma ReadBack(answers: Answers, id: InstanceId, value: AnswerValue, stamp: string, other: InstanceId)
    ensures Normalize(GetAnswer(Written(answers, id, value, stamp), other))
         == Normalize(if other == id then value else GetAnswer(answers, other))
  {
  }

  /**
    After writing the value, a dependency decides to hide exactly when it hides under the value and
    its operator is supported.
   */
  lemma DecidesAfterWrite(f: Instances, order: seq<InstanceId>, answers: Answers, current: InstanceId, id: InstanceId,
                          value: AnswerValue, stamp: string, dep: Dependency)
    ensures Decides(f, order, Written(answers, id, value, stamp), current, dep) == Some(Hide) <==>
            HidesUnder(f, order, answers, current, id, value, dep) && Supported(dep.condition.value.operator)
  {
    if dep.Conditional? && dep.condition.Some? {
      var related := FindRelated(f, order, dep.condition.value.taskId, current);
      if related.Some? {
        ReadBack(answers, id, value, stamp, related.value);
      }
    }
  }

  /** What will really be hidden was always predicted, whatever the dependencies look like. */
  lemma HiddenIsPredicted(f: Instances, order: seq<InstanceId>, answers: Answers, current: InstanceId,
                          deps: seq<Dependency>,
                          id: InstanceId, value: AnswerValue, stamp: string)
    requires FirstDecision(f, order, Written(answers, id, value, stamp), current, deps, Hide)
    ensures exists k :: 0 <= k < |deps| && HidesUnder(f, order, answers, current, id, value, deps[k])
  {
    var k :| 0 <= k < |deps| && Decides(f, order, Written(answers, id, value, stamp), current, deps[k]) == Some(Hide);
    DecidesAfterWrite(f, order, answers, current, id, value, stamp, deps[k]);
  }

  /** Shows the task or fails, whatever the answers are. */
  predicate Stops(f: Instances, order: seq<InstanceId>, current: InstanceId, dep: Dependency) {
    && dep.Conditional?
    && (dep.condition.None? || dep.condition.value.value.None?
        || (!Supported(dep.condition.value.operator) &&
            FindRelated(f, order, dep.condition.value.taskId, current).Some?))
  }

  /** k is the first dependency that hides under the value. */
  predicate FirstHiding(f: Instances, order: seq<InstanceId>, answers: Answers, current: InstanceId,
                        deps: seq<Dependency>,
                        id: InstanceId, value: AnswerValue, k: nat) {
    && k < |deps| && HidesUnder(f, order, answers, current, id, value, deps[k])
    && forall j | 0 <= j < k :: !HidesUnder(f, order, answers, current, id, value, deps[j])
  }

  predicate Predicted(f: Instances, order: seq<InstanceId>, answers: Answers, current: InstanceId,
                      deps: seq<Dependency>,
                      id: InstanceId, value: AnswerValue) {
    exists k :: 0 <= k < |deps| && HidesUnder(f, order, answers, current, id, value, deps[k])
  }

  lemma {:induction false} FirstHidingExists(f: Instances, order: seq<InstanceId>, answers: Answers,
                                             current: InstanceId, deps: seq<Dependency>,
                                             id: InstanceId, value: AnswerValue, k: nat) returns (first: nat)
    requires k < |deps| && HidesUnder(f, order, answers, current, id, value, deps[k])
    ensures FirstHiding(f, order, answers, current, deps, id, value, first)
  {
    if j :| 0 <= j < k && HidesUnder(f, order, answers, current, id, value, deps[j]) {
      first := FirstHidingExists(f, order, answers, current, deps, id, value, j);
    } else {
      first := k;
    }
  }

  /** A dependency decides something else than to hide exactly when it stops. */
  lemma StopsDecides(f: Instances, order: seq<InstanceId>, answers: Answers, current: InstanceId, dep: Dependency)
    ensures Stops(f, order, current, dep) <==>
            Decides(f, order, answers, current, dep).Some? && Decides(f, order, answers, current, dep) != Some(Hide)
  {
  }

  /** The first hiding dependency decides the verdict exactly when no dependency up to it stops. */
  lemma FirstHidingDecides(f: Instances, order: seq<InstanceId>, answers: Answers, current: InstanceId,
                           deps: seq<Dependency>,
                           id: InstanceId, value: AnswerValue, stamp: string, v: Verdict, k: nat)
    requires FirstDecision(f, order, Written(answers, id, value, stamp), current, deps, v)
    requires FirstHiding(f, order, answers, current, deps, id, value, k)
    ensures v == Hide <==> forall i | 0 <= i <= k :: !Stops(f, order, current, deps[i])
  {
    var after := Written(answers, id, value, stamp);
    forall j | 0 <= j <= k
      ensures Decides(f, order, after, current, deps[j]) == Some(Hide) ==> j == k && !Stops(f, order, current, deps[k])
      ensures Stops(f, order, current, deps[j]) <==>
              Decides(f, order, after, current, deps[j]).Some? &&
                  Decides(f, order, after, current, deps[j]) != Some(Hide) {
      DecidesAfterWrite(f, order, answers, current, id, value, stamp, deps[j]);
      StopsDecides(f, order, after, current, deps[j]);
    }
    DecidesAfterWrite(f, order, answers, current, id, value, stamp, deps[k]);
  }

  /**
    The prediction agrees with the verdict after the write exactly when no dependency stops the
    evaluation at or before the first one that hides.
   */
  lemma PredictionIff(f: Instances, order: seq<InstanceId>, answers: Answers, current: InstanceId,
                      deps: seq<Dependency>,
                      id: InstanceId, value: AnswerValue, stamp: string, v: Verdict)
    requires FirstDecision(f, order, Written(answers, id, value, stamp), current, deps, v)
    ensures (v == Hide <==> Predicted(f, order, answers, current, deps, id, value)) <==>
            forall k, i | 0 <= i <= k < |deps| && FirstHiding(f, order, answers, current, deps, id, value, k) ::
              !Stops(f, order, current, deps[i])
  {
    if Predicted(f, order, answers, current, deps, id, value) {
      var k :| 0 <= k < |deps| && HidesUnder(f, order, answers, current, id, value, deps[k]);
      var first := FirstHidingExists(f, order, answers, current, deps, id, value, k);
      FirstHidingDecides(f, order, answers, current, deps, id, value, stamp, v, first);
      assert forall m | FirstHiding(f, order, answers, current, deps, id, value, m) :: m == first;
    } else if v == Hide {
      HiddenIsPredicted(f, order, answers, current, deps, id, value, stamp);
    }
  }

  /** Nothing but hiding can stop the evaluation at this dependency. */
  predicate Complete(dep: Dependency) {
    dep.Conditional? ==>
        && dep.condition.Some? && dep.condition.value.value.Some?
        && dep.condition.value.operator in ["equals", "any", "contains"]
  }

  /** The dependency asks for something that the answers do not give. */
  predicate Unmet(f: Instances, order: seq<InstanceId>, answers: Answers, current: InstanceId, dep: Dependency) {
    && dep.Conditional? && dep.condition.Some? && dep.condition.value.value.Some? && dep.action == "show"
    && var c := dep.condition.value;
       var related := FindRelated(f, order, c.taskId, current);
       related.Some? && !Satisfied(answers, related.value, c.operator, c.value.value)
  }

  lemma UnmetAfterWrite(f: Instances, order: seq<InstanceId>, answers: Answers, current: InstanceId, dep: Dependency,
                        id: InstanceId, value: AnswerValue, stamp: string)
    ensures Unmet(f, order, Written(answers, id, value, stamp), current, dep) <==>
            HidesUnder(f, order, answers, current, id, value, dep)
  {
    if dep.Conditional? && dep.condition.Some? && dep.condition.value.value.Some? {
      var c := dep.condition.value;
      var related := FindRelated(f, order, c.taskId, current);
      if related.Some? {
        ReadBack(answers, id, value, stamp, related.value);
        MetIffSatisfied(Written(answers, id, value, stamp), related.value, c.operator, c.value.value);
      }
    }
  }

  /**
    Both tests, for complete dependencies: the task is predicted hidden exactly when it is hidden after
    the write, and that is when some dependency asks for something that the answers then do not give.
   */
  method PredictThenWrite(f: Instances, order: seq<InstanceId>, answers: Answers, current: InstanceId,
                          deps: seq<Dependency>,
                          id: InstanceId, value: AnswerValue, stamp: string) returns (predicted: bool, v: Verdict)
    requires forall k | 0 <= k < |deps| :: Complete(deps[k])
    ensures predicted <==> v == Hide
    ensures v == Show || v == Hide
    ensures v == Hide <==> exists k ::
              0 <= k < |deps| && Unmet(f, order, Written(answers, id, value, stamp), current, deps[k])
  {
    predicted := WouldBeHiddenUnder(f, order, answers, current, deps, id, value);
    forall k | 0 <= k < |deps|
      ensures Unmet(f, order, Written(answers, id, value, stamp), current, deps[k]) <==>
              HidesUnder(f, order, answers, current, id, value, deps[k]) {
      UnmetAfterWrite(f, order, answers, current, deps[k], id, value, stamp);
    }
    v := ShouldShowTask(f, order, Written(answers, id, value, stamp), current, deps);
    if current in f {
      forall k | 0 <= k < |deps| ensures !Stops(f, order, current, deps[k])
                                 ensures var dec := Decides(f, order, Written(answers, id, value, stamp), current,
                                                            deps[k]);
                                         dec.None? || dec == Some(Hide) {
        StopsDecides(f, order, Written(answers, id, value, stamp), current, deps[k]);
      }
      PredictionIff(f, order, answers, current, deps, id, value, stamp, v);
    } else {
      assert forall t :: FindRelated(f, order, t, current).None?;
    }
  }
}
