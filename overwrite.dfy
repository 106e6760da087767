/**
 * The overwrite gate that runs before any destination file is opened.
 *
 * An existing destination is left alone unless overwriting is forced, or
 * the user is asked and consents. The answers typed at the prompt are a
 * parameter: the sequence of lines standard input would deliver, in order.
 */
module Overwrite {
  import opened Common
  import opened Text

  /** An answer as the prompt reads it: stripped and lower-cased. */
  function Reply(raw: string): string
  {
    Lower(Strip(raw))
  }

  predicate IsYes(reply: string)
  {
    reply == "y" || reply == "yes"
  }

  predicate IsNo(reply: string)
  {
    reply == "n" || reply == "no" || reply == ""
  }

  /** How the prompt takes one line of input. */
  datatype Answer = Yes | No | Unclear

  /** Consent for y/yes, refusal for n/no/nothing, the question again for anything else. */
  function Classify(raw: string): (a: Answer)
    ensures a == Yes <==> IsYes(Reply(raw))
    ensures a == No <==> IsNo(Reply(raw))
  {
    var reply := Reply(raw);
    if IsYes(reply) then Yes
    else if IsNo(reply) then No
    else Unclear
  }

  /**
   * Yes is "y" or "yes" and no is "n", "no" or nothing, in any mix of
   * cases, once the surrounding white space is gone.
   */
  lemma ClassifyAnyCase(raw: string)
    ensures Classify(raw) == Yes <==> SpellsAnyCase(Strip(raw), "y") || SpellsAnyCase(Strip(raw), "yes")
    ensures Classify(raw) == No <==>
      SpellsAnyCase(Strip(raw), "n") || SpellsAnyCase(Strip(raw), "no") || Strip(raw) == []
  {
    var t := Strip(raw);
    LowerIsAnyCase(t, "y");
    LowerIsAnyCase(t, "yes");
    LowerIsAnyCase(t, "n");
    LowerIsAnyCase(t, "no");
  }

  /**
   * White space around an answer does not matter: a word typed with blanks
   * around it is taken as the word alone.
   */
  lemma ClassifyPadded(a: string, w: string, b: string)
    requires AllSpace(a) && AllSpace(b)
    requires w != [] && !IsSpace(w[0]) && !IsSpace(w[|w| - 1])
    ensures Classify(a + w + b) == Classify(w)
  {
    StripAround(a, w, b);
    StripAround([], w, []);
    assert [] + w + [] == w;
  }

  /** How the prompt takes each line of input, in order. */
  function Answers(answers: seq<string>): (cs: seq<Answer>)
    ensures |cs| == |answers|
    decreases |answers|
  {
    if answers == [] then [] else [Classify(answers[0])] + Answers(answers[1..])
  }

  lemma {:induction false} AnswersAt(answers: seq<string>, i: nat)
    requires i < |answers|
    ensures Answers(answers)[i] == Classify(answers[i])
    decreases i
  {
    if i > 0 {
      AnswersAt(answers[1..], i - 1);
    }
  }

  /** Answers read after skipping the first `k` lines are the rest of the answers. */
  lemma {:induction false} AnswersDrop(answers: seq<string>, k: nat)
    requires k <= |answers|
    ensures Answers(answers[k..]) == Answers(answers)[k..]
    decreases k
  {
    if k > 0 {
      assert answers[k..] == answers[1..][k - 1..];
      AnswersDrop(answers[1..], k - 1);
    }
  }

  /** The position of the first answer that ends the prompt loop, if any. */
  function FirstDecisive(cs: seq<Answer>): (r: Option<nat>)
    ensures r.Some? ==> r.value < |cs| && cs[r.value] != Unclear
    ensures r.Some? ==> forall j :: 0 <= j < r.value ==> cs[j] == Unclear
    ensures r.None? ==> forall j :: 0 <= j < |cs| ==> cs[j] == Unclear
    decreases |cs|
  {
    if cs == [] then None
    else if cs[0] != Unclear then Some(0)
    else match FirstDecisive(cs[1..])
      case None => None
      case Some(i) => Some(i + 1)
  }

  /**
   * `ask_overwrite`: asks until a reply is y/yes (consent) or n/no/empty
   * (refusal); `None` when the input runs out first, where `input` raises
   * EOFError. `used` is the number of lines read.
   */
  method AskOverwrite(answers: seq<string>) returns (consent: Option<bool>, used: nat)
    ensures used <= |answers|
    ensures consent.None? <==> FirstDecisive(Answers(answers)).None?
    ensures consent.None? ==> used == |answers|
    ensures consent.Some? ==> used == FirstDecisive(Answers(answers)).value + 1
    ensures consent.Some? ==> (consent.value <==> Answers(answers)[used - 1] == Yes)
  {
    ghost var cs := Answers(answers);
    used := 0;
    while true
      invariant used <= |answers|
      invariant forall j :: 0 <= j < used ==> cs[j] == Unclear
      decreases |answers| - used
    {
      if used == |answers| {
        return None, used;
      }
      var ans := Reply(answers[used]);
      AnswersAt(answers, used);
      if IsYes(ans) {
        return Some(true), used + 1;
      }
      if IsNo(ans) {
        return Some(false), used + 1;
      }
      used := used + 1;
    }
  }

  /** Why a destination was not let through. */
  datatype Refusal =
    | AbortedByUser     // asked, and the answer was no
    | AlreadyExists     // neither forced nor asked
    | InputExhausted    // asked, and the input ran out before a decisive answer

  /** The gate's decision, with the lines still unread when it lets the path through. */
  datatype Verdict = Proceed(rest: seq<string>) | Refuse(reason: Refusal)

  /**
   * What `check_overwrite` decides: an absent destination or `force` passes
   * without a question; with `ask` the first decisive answer decides;
   * otherwise an existing destination is refused.
   */
  function Gate(present: bool, force: bool, ask: bool, answers: seq<string>): Verdict
  {
    if !present then Proceed(answers)
    else if force then Proceed(answers)
    else if ask then
      match FirstDecisive(Answers(answers))
      case None => Refuse(InputExhausted)
      case Some(i) => if Answers(answers)[i] == Yes then Proceed(answers[i + 1..]) else Refuse(AbortedByUser)
    else Refuse(AlreadyExists)
  }

  /**
   * The gate passes an absent destination and any destination under
   * `force`; otherwise, when asked, the first decisive answer decides, and
   * what the gate passes on is the input left after that answer.
   */
  lemma GateDecides(present: bool, force: bool, ask: bool, answers: seq<string>)
    ensures Gate(present, force, ask, answers).Proceed? <==>
      !present || force || (ask && FirstDecisive(Answers(answers)).Some?
        && Answers(answers)[FirstDecisive(Answers(answers)).value] == Yes)
    ensures var v := Gate(present, force, ask, answers);
      v.Proceed? ==> |v.rest| <= |answers| && v.rest == answers[|answers| - |v.rest|..]
    ensures !present || force ==> Gate(present, force, ask, answers) == Proceed(answers)
    ensures Gate(present, force, ask, answers) == Refuse(AlreadyExists) <==> present && !force && !ask
    ensures Gate(present, force, ask, answers) == Refuse(AbortedByUser) <==>
      present && !force && ask && FirstDecisive(Answers(answers)).Some?
        && Answers(answers)[FirstDecisive(Answers(answers)).value] == No
    ensures Gate(present, force, ask, answers) == Refuse(InputExhausted) <==> present && !force && ask && FirstDecisive(Answers(answers)).None?
  {
  }

  /** `check_overwrite`, asking through `AskOverwrite` when it has to. */
  method CheckOverwrite(present: bool, force: bool, ask: bool, answers: seq<string>) returns (v: Verdict)
    ensures v == Gate(present, force, ask, answers)
  {
    if !present {
      return Proceed(answers);
    }
    if force {
      return Proceed(answers);
    }
    if ask {
      var consent, used := AskOverwrite(answers);
      if consent == Some(true) {
        return Proceed(answers[used..]);
      }
      if consent == Some(false) {
        return Refuse(AbortedByUser);
      }
      return Refuse(InputExhausted);
    }
    return Refuse(AlreadyExists);
  }

  /** Some line among `answers` is a y or yes. */
  predicate SomeYes(answers: seq<string>)
  {
    exists j :: 0 <= j < |answers| && Classify(answers[j]) == Yes
  }

  /**
   * An existing destination passes only with `force` or with a yes among
   * the answers.
   */
  lemma ConsentNeeded(present: bool, force: bool, ask: bool, answers: seq<string>)
    requires present && Gate(present, force, ask, answers).Proceed?
    ensures force || (ask && SomeYes(answers))
  {
    if !force {
      var i := FirstDecisive(Answers(answers)).value;
      AnswersAt(answers, i);
      assert Classify(answers[i]) == Yes;
    }
  }

  /** A first answer of y or yes lets an existing destination through after one line. */
  lemma YesFirst(answers: seq<string>)
    requires answers != [] && Classify(answers[0]) == Yes
    ensures Gate(true, false, true, answers) == Proceed(answers[1..])
  {
    AnswersAt(answers, 0);
  }

  /** An undecided answer is skipped: the question is asked again on the next line. */
  lemma UnclearSkipped(answers: seq<string>)
    requires answers != [] && Classify(answers[0]) == Unclear
    ensures Gate(true, false, true, answers) == Gate(true, false, true, answers[1..])
  {
    var cs := Answers(answers);
    AnswersAt(answers, 0);
    AnswersDrop(answers, 1);
    match FirstDecisive(cs[1..])
    case None =>
    case Some(i) =>
      assert answers[1..][i + 1..] == answers[i + 2..];
  }
}
