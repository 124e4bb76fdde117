/**
 * The answers typed at the prompts, reduced to the values the rest of the
 * program uses: the day offset, the priority, the yes/no answers and the
 * numbered menu choices.
 */
module Prompts {
  import opened Wrappers
  import opened Text

  /** The priorities the API accepts, and the one used when the answer is not one of them. */
  const Priorities: set<string> := {"ASAP", "HIGH", "MEDIUM", "LOW"}
  const DefaultPriority := "MEDIUM"

  /**
   * The day offset: `int(answer)` when the answer is not blank, 0 when it is
   * blank or `int` raises ValueError.
   */
  function ParseDelta(answer: string): (delta: int)
    ensures ParseInt(answer).Some? ==> delta == ParseInt(answer).value
    ensures ParseInt(answer).None? ==> delta == 0
  {
    if answer == [] then 0
    else match ParseInt(answer)
      case Some(n) => n
      case None => 0
  }

  /** Every whole number, written as `str` writes it, is read back as itself. */
  lemma DeltaRoundTrip(n: int)
    ensures ParseDelta(IntText(n)) == n
  {
    IntTextRoundTrip(n);
  }

  /** Blank answers, and answers that are only whitespace, give no offset. */
  lemma DeltaBlank(answer: string)
    requires forall i :: 0 <= i < |answer| ==> IsSpace(answer[i])
    ensures ParseDelta(answer) == 0
  {
    var t := TrimStart(answer);
    assert t == [] by {
      if t != [] {
        assert false;
      }
    }
  }

  /**
   * The project priority: the answer upper-cased when that is one of the four
   * priorities, MEDIUM when the answer is blank or anything else.
   */
  function NormalizePriority(answer: string): (priority: string)
    ensures priority in Priorities
    ensures Upper(answer) in Priorities ==> priority == Upper(answer)
    ensures Upper(answer) !in Priorities ==> priority == DefaultPriority
  {
    if answer == [] then DefaultPriority
    else if Upper(answer) !in Priorities then DefaultPriority
    else Upper(answer)
  }

  /** Upper-casing a string twice is upper-casing it once. */
  lemma UpperTwice(s: string)
    ensures Upper(Upper(s)) == Upper(s)
  {
  }

  /** A normalized priority normalizes to itself. */
  lemma PriorityIdempotent(answer: string)
    ensures NormalizePriority(NormalizePriority(answer)) == NormalizePriority(answer)
  {
    var p := NormalizePriority(answer);
    assert Upper(DefaultPriority) == DefaultPriority;
    if Upper(answer) in Priorities {
      UpperTwice(answer);
    }
  }

  /** The priority does not depend on the case of the answer. */
  lemma PriorityIgnoresCase(answer: string)
    ensures NormalizePriority(Lower(answer)) == NormalizePriority(answer)
    ensures NormalizePriority(Upper(answer)) == NormalizePriority(answer)
  {
    assert Upper(Lower(answer)) == Upper(answer);
    UpperTwice(answer);
  }

  /** `answer.lower() == "y"`: the answer is a single y, in either case. */
  function YesAnswer(answer: string): (yes: bool)
    ensures yes <==> answer == "y" || answer == "Y"
  {
    Lower(answer) == "y"
  }

  // ---------------------------------------------------------------------------
  // Numbered menus

  /**
   * `xs[choice - 1]` when `1 <= choice <= len(xs)`, nothing otherwise: the
   * choice is the number the item was listed under.
   */
  function Choose<T>(xs: seq<T>, choice: int): (r: Option<T>)
    ensures r.Some? <==> 1 <= choice <= |xs|
    ensures r.Some? ==> r.value == xs[choice - 1] && r.value in xs
  {
    if 1 <= choice <= |xs| then Some(xs[choice - 1]) else None
  }

  /** What one answer to a menu prompt does: pick an item, pick nothing, or ask again. */
  datatype Answer<T> = Picked(item: T) | NoneChosen | Retry

  /**
   * The workspace and project menus: a number in range picks that item; a
   * number out of range or an answer `int` refuses asks again. There is no way
   * out but a valid pick.
   */
  function ListedAnswer<T>(xs: seq<T>, answer: string): Answer<T> {
    match ParseInt(answer)
    case None => Retry
    case Some(choice) =>
      match Choose(xs, choice)
      case Some(x) => Picked(x)
      case None => Retry
  }

  /**
   * The schedule menu: a blank answer or 0 picks no schedule; a number in range
   * picks that schedule's name; anything else asks again.
   */
  function ScheduleAnswer<T>(names: seq<T>, answer: string): Answer<T> {
    if answer == [] then NoneChosen
    else match ParseInt(answer)
      case None => Retry
      case Some(choice) =>
        if choice == 0 then NoneChosen
        else match Choose(names, choice)
          case Some(name) => Picked(name)
          case None => Retry
  }

  /**
   * The template-file menu: a blank answer picks no file (the program then
   * offers to create a template); a number in range picks that file; anything
   * else, 0 included, asks again.
   */
  function TemplateFileAnswer<T>(files: seq<T>, answer: string): Answer<T> {
    if answer == [] then NoneChosen
    else match ParseInt(answer)
      case None => Retry
      case Some(choice) =>
        match Choose(files, choice)
        case Some(file) => Picked(file)
        case None => Retry
  }

  /**
   * The menus pick only listed items, each under the number it was listed with
   * (`i + 1` for item i), and only the schedule and template-file menus can
   * end without a pick.
   */
  lemma MenuPicks<T>(xs: seq<T>, answer: string)
    ensures ListedAnswer(xs, answer) != NoneChosen
    ensures ListedAnswer(xs, answer).Picked? ==>
      ParseInt(answer).Some? && ListedAnswer(xs, answer).item == xs[ParseInt(answer).value - 1]
    ensures ScheduleAnswer(xs, answer).Picked? ==>
      ParseInt(answer).Some? && ScheduleAnswer(xs, answer).item == xs[ParseInt(answer).value - 1]
    ensures TemplateFileAnswer(xs, answer).Picked? ==>
      ParseInt(answer).Some? && TemplateFileAnswer(xs, answer).item == xs[ParseInt(answer).value - 1]
    ensures ScheduleAnswer(xs, answer) == NoneChosen <==> answer == [] || ParseInt(answer) == Some(0)
    ensures TemplateFileAnswer(xs, answer) == NoneChosen <==> answer == []
  {
  }

  /** Typing the number an item was listed under picks that item, in every menu. */
  lemma MenuNumbering<T>(xs: seq<T>, k: nat)
    requires k < |xs|
    ensures ListedAnswer(xs, IntText(k + 1)) == Picked(xs[k])
    ensures ScheduleAnswer(xs, IntText(k + 1)) == Picked(xs[k])
    ensures TemplateFileAnswer(xs, IntText(k + 1)) == Picked(xs[k])
  {
    IntTextRoundTrip(k + 1);
    assert IntText(k + 1) == Decimal(k + 1);
  }
}
