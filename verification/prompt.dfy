/** The operator's answers (src/services/readline.service.ts). Prompting itself
    is replaced by a list of answers consumed front to back. */
module Prompt {
  import opened Text

  /** `yesRegExp.test(answer)`: the whole answer is "y" or "yes", ignoring the
      case of ASCII letters. */
  predicate IsYes(answer: string) {
    Lower(answer) == "y" || Lower(answer) == "yes"
  }

  lemma LowerCharIs(c: char, target: char)
    requires 'a' <= target <= 'z'
    ensures LowerChar(c) == target <==> c == target || c as int == target as int - 32
  {
  }

  /** The accepted answers, letter by letter: "y" or "yes" in any mix of cases,
      nothing before, nothing after. */
  lemma IsYesIff(answer: string)
    ensures IsYes(answer) <==>
      || (|answer| == 1 && answer[0] in "yY")
      || (|answer| == 3 && answer[0] in "yY" && answer[1] in "eE" && answer[2] in "sS")
  {
    var l := Lower(answer);
    if |answer| == 1 {
      LowerCharIs(answer[0], 'y');
      assert l == "y" <==> l[0] == 'y';
    } else if |answer| == 3 {
      LowerCharIs(answer[0], 'y');
      LowerCharIs(answer[1], 'e');
      LowerCharIs(answer[2], 's');
      assert l == "yes" <==> l[0] == 'y' && l[1] == 'e' && l[2] == 's';
    } else {
      assert |l| == |answer|;
    }
  }

  /** Examples: the anchors and the case folding. */
  lemma IsYesExamples()
    ensures IsYes("y") && IsYes("Y") && IsYes("yes") && IsYes("YES") && IsYes("Yes")
    ensures !IsYes("") && !IsYes("yes ") && !IsYes("yeah") && !IsYes("ny") && !IsYes("n")
  {
    IsYesIff("y");
    IsYesIff("Y");
    IsYesIff("yes");
    IsYesIff("YES");
    IsYesIff("Yes");
    IsYesIff("");
    IsYesIff("yes ");
    IsYesIff("yeah");
    IsYesIff("ny");
    IsYesIff("n");
  }

  /** A `[Y/n]` question goes on for "yes" and for a bare Enter; anything else
      is a refusal. */
  predicate Proceeds(answer: string) {
    IsYes(answer) || answer == ""
  }

  /** The reading of a `[Y/a/n]` answer: `isAll` stands for the "all" pattern. */
  datatype Reply = Proceed | ProceedToAll | Refuse

  function YesAllNo(answer: string, isAll: string -> bool): (r: Reply)
    ensures r == Refuse <==> !IsYes(answer) && !isAll(answer) && answer != ""
    ensures r == ProceedToAll <==> isAll(answer)
  {
    if !IsYes(answer) && !isAll(answer) && answer != "" then Refuse
    else if isAll(answer) then ProceedToAll
    else Proceed
  }

  /** Asking a `[Y/n]` question: the answer at `cursor` is consumed. When the
      operator has no answer left the run goes no further, as if refused. */
  predicate AskYesNo(answers: seq<string>, cursor: nat) {
    cursor < |answers| && Proceeds(answers[cursor])
  }

  /** Asking a `[Y/a/n]` question, with the same reading of a missing answer. */
  function AskYesAllNo(answers: seq<string>, isAll: string -> bool, cursor: nat): (r: Reply)
    ensures cursor >= |answers| ==> r == Refuse
  {
    if cursor < |answers| then YesAllNo(answers[cursor], isAll) else Refuse
  }
}
