/** The keyword classifier `getSmartMailAssistantSuggestions` (app/lib/ai/smart-mail-agent.ts):
    a pass over the messages that collects the important ones and the suggested next steps. */
module SmartMail {
  import opened Wrappers
  import opened Text
  import opened EmailTypes

  const UrgentKeyword := "urgent"
  const ActionKeyword := "action required"
  const MeetingKeyword := "meeting"
  const SummaryPrefix := "This email is marked as important and requires your attention. Subject: "
  const NoUrgentStep := "No urgent emails found. Consider reviewing unread messages."
  const OrganizeStep := "Organize your inbox by archiving old emails."

  datatype ImportantEmail = ImportantEmail(id: string, subject: string, summary: string)
  datatype SuggestedNextStep = SuggestedNextStep(description: string, relatedEmailId: Option<string>)
  datatype SmartMailResult = SmartMailResult(importantEmails: seq<ImportantEmail>, suggestedNextSteps: seq<SuggestedNextStep>)

  /** The lower-cased subject mentions `urgent` or `action required`. */
  predicate IsImportant(subject: string) {
    Contains(ToLower(subject), UrgentKeyword) || Contains(ToLower(subject), ActionKeyword)
  }

  /** A meeting is only confirmed when the urgent rule did not already apply. */
  predicate IsMeetingOnly(subject: string) {
    !IsImportant(subject) && Contains(ToLower(subject), MeetingKeyword)
  }

  function ImportantOf(m: EmailMessage): (e: ImportantEmail)
    ensures e.id == m.id && e.subject == m.subject && e.summary == SummaryPrefix + m.subject
  {
    ImportantEmail(m.id, m.subject, SummaryPrefix + m.subject)
  }

  function ReviewStep(m: EmailMessage): (s: SuggestedNextStep)
    ensures s.description == "Review and respond to \"" + m.subject + "\"" && s.relatedEmailId == Some(m.id)
  {
    SuggestedNextStep("Review and respond to \"" + m.subject + "\"", Some(m.id))
  }

  function ConfirmStep(m: EmailMessage): (s: SuggestedNextStep)
    ensures s.description == "Confirm attendance for \"" + m.subject + "\"" && s.relatedEmailId == Some(m.id)
  {
    SuggestedNextStep("Confirm attendance for \"" + m.subject + "\"", Some(m.id))
  }

  /** The steps one message contributes inside the loop. */
  function StepsOf(m: EmailMessage): (r: seq<SuggestedNextStep>)
    ensures IsImportant(m.subject) ==> r == [ReviewStep(m)]
    ensures IsMeetingOnly(m.subject) ==> r == [ConfirmStep(m)]
    ensures !IsImportant(m.subject) && !IsMeetingOnly(m.subject) ==> r == []
  {
    if IsImportant(m.subject) then [ReviewStep(m)]
    else if IsMeetingOnly(m.subject) then [ConfirmStep(m)]
    else []
  }

  /** The important messages of `emails`, in order. */
  function ImportantEmails(emails: seq<EmailMessage>): seq<ImportantEmail> {
    if emails == [] then []
    else ImportantEmails(emails[..|emails| - 1])
         + (if IsImportant(emails[|emails| - 1].subject) then [ImportantOf(emails[|emails| - 1])] else [])
  }

  /** The steps the loop pushes for `emails`, in order. */
  function LoopSteps(emails: seq<EmailMessage>): seq<SuggestedNextStep> {
    if emails == [] then [] else LoopSteps(emails[..|emails| - 1]) + StepsOf(emails[|emails| - 1])
  }

  /** The steps pushed after the loop. */
  function ClosingSteps(importantCount: nat): (r: seq<SuggestedNextStep>)
    ensures |r| >= 1 && r[|r| - 1] == SuggestedNextStep(OrganizeStep, None)
    ensures importantCount == 0 <==> |r| == 2
    ensures importantCount == 0 ==> r[0] == SuggestedNextStep(NoUrgentStep, None)
  {
    (if importantCount == 0 then [SuggestedNextStep(NoUrgentStep, None)] else []) + [SuggestedNextStep(OrganizeStep, None)]
  }

  /** What the classifier returns for `emails`. */
  function Suggestions(emails: seq<EmailMessage>): SmartMailResult {
    var important := ImportantEmails(emails);
    SmartMailResult(important, LoopSteps(emails) + ClosingSteps(|important|))
  }

  /** `getSmartMailAssistantSuggestions`. */
  method GetSmartMailAssistantSuggestions(emails: seq<EmailMessage>) returns (r: SmartMailResult)
    ensures r == Suggestions(emails)
  {
    var importantEmails: seq<ImportantEmail> := [];
    var suggestedNextSteps: seq<SuggestedNextStep> := [];
    var i := 0;
    while i < |emails|
      invariant 0 <= i <= |emails|
      invariant importantEmails == ImportantEmails(emails[..i])
      invariant suggestedNextSteps == LoopSteps(emails[..i])
    {
      var email := emails[i];
      assert emails[..i + 1][..i] == emails[..i];
      var subject := ToLower(email.subject);
      if Contains(subject, UrgentKeyword) || Contains(subject, ActionKeyword) {
        importantEmails := importantEmails + [ImportantOf(email)];
        suggestedNextSteps := suggestedNextSteps + [ReviewStep(email)];
      } else if Contains(subject, MeetingKeyword) {
        suggestedNextSteps := suggestedNextSteps + [ConfirmStep(email)];
      }
      i := i + 1;
    }
    assert emails[..i] == emails;
    if |importantEmails| == 0 {
      suggestedNextSteps := suggestedNextSteps + [SuggestedNextStep(NoUrgentStep, None)];
    }
    suggestedNextSteps := suggestedNextSteps + [SuggestedNextStep(OrganizeStep, None)];
    r := SmartMailResult(importantEmails, suggestedNextSteps);
  }

  /** The number of messages the meeting rule alone applies to. */
  function MeetingOnlyCount(emails: seq<EmailMessage>): nat {
    if emails == [] then 0
    else MeetingOnlyCount(emails[..|emails| - 1]) + (if IsMeetingOnly(emails[|emails| - 1].subject) then 1 else 0)
  }

  /** The list of important messages is the important subsequence of the input, summarised:
      order is kept, and every message it lists is important. */
  lemma {:induction false} ImportantInOrder(emails: seq<EmailMessage>)
    ensures IsSubseq(ImportantEmails(emails), MapImportant(emails))
    ensures |ImportantEmails(emails)| <= |emails|
    ensures forall e :: e in ImportantEmails(emails) ==> IsImportant(e.subject)
  {
    if emails != [] {
      var init := emails[..|emails| - 1];
      var last := emails[|emails| - 1];
      ImportantInOrder(init);
      assert MapImportant(emails) == MapImportant(init) + [ImportantOf(last)];
      if IsImportant(last.subject) {
        SubseqRefl([ImportantOf(last)]);
      } else {
        SubseqEmpty([ImportantOf(last)]);
        assert ImportantEmails(emails) == ImportantEmails(init) + [];
      }
      SubseqConcat(ImportantEmails(init), MapImportant(init),
                   if IsImportant(last.subject) then [ImportantOf(last)] else [], [ImportantOf(last)]);
    }
  }

  /** Every message, summarised, in order. */
  function MapImportant(emails: seq<EmailMessage>): (r: seq<ImportantEmail>)
    ensures |r| == |emails|
    ensures forall k :: 0 <= k < |emails| ==> r[k] == ImportantOf(emails[k])
  {
    if emails == [] then [] else MapImportant(emails[..|emails| - 1]) + [ImportantOf(emails[|emails| - 1])]
  }

  /** A message is listed as important exactly when its subject is. */
  lemma {:induction false} ImportantIff(emails: seq<EmailMessage>, k: nat)
    requires k < |emails|
    ensures ImportantOf(emails[k]) in ImportantEmails(emails) <==> IsImportant(emails[k].subject)
  {
    ImportantInOrder(emails);
    if IsImportant(emails[k].subject) {
      ImportantListed(emails, k);
    }
  }

  lemma {:induction false} ImportantListed(emails: seq<EmailMessage>, k: nat)
    requires k < |emails| && IsImportant(emails[k].subject)
    ensures ImportantOf(emails[k]) in ImportantEmails(emails)
  {
    var init := emails[..|emails| - 1];
    if k < |emails| - 1 {
      assert init[k] == emails[k];
      ImportantListed(init, k);
    }
  }

  /** Inside the loop every important message gives one review step and every meeting-only
      message one confirmation step, and nothing else gives a step. */
  lemma {:induction false} LoopStepCount(emails: seq<EmailMessage>)
    ensures |LoopSteps(emails)| == |ImportantEmails(emails)| + MeetingOnlyCount(emails)
    ensures forall s :: s in LoopSteps(emails) ==> s.relatedEmailId.Some?
  {
    if emails != [] {
      LoopStepCount(emails[..|emails| - 1]);
    }
  }

  /** The step count: important + meeting-only + one "no urgent" step when nothing is important
      + the closing "organize" step. */
  lemma StepCount(emails: seq<EmailMessage>)
    ensures |Suggestions(emails).suggestedNextSteps| ==
      |ImportantEmails(emails)| + MeetingOnlyCount(emails) + (if |ImportantEmails(emails)| == 0 then 1 else 0) + 1
  {
    LoopStepCount(emails);
  }

  /** The last step is always the "organize" step, with no related message. */
  lemma LastStepOrganize(emails: seq<EmailMessage>)
    ensures |Suggestions(emails).suggestedNextSteps| >= 1
    ensures Suggestions(emails).suggestedNextSteps[|Suggestions(emails).suggestedNextSteps| - 1] == SuggestedNextStep(OrganizeStep, None)
  {
  }

  /** The "no urgent" step is suggested exactly when no message is important. */
  lemma NoUrgentIff(emails: seq<EmailMessage>)
    ensures SuggestedNextStep(NoUrgentStep, None) in Suggestions(emails).suggestedNextSteps <==> |ImportantEmails(emails)| == 0
  {
    LoopStepCount(emails);
    var loop := LoopSteps(emails);
    var closing := ClosingSteps(|ImportantEmails(emails)|);
    var all := loop + closing;
    assert SuggestedNextStep(NoUrgentStep, None) !in loop;
    if SuggestedNextStep(NoUrgentStep, None) in all {
      var j :| 0 <= j < |all| && all[j] == SuggestedNextStep(NoUrgentStep, None);
      assert j >= |loop|;
      assert closing[j - |loop|] == SuggestedNextStep(NoUrgentStep, None);
    }
    if |ImportantEmails(emails)| == 0 {
      assert all[|loop|] == closing[0];
    }
  }

  /** An urgent meeting is reviewed, not confirmed: the urgent rule takes precedence. */
  lemma UrgentBeforeMeeting(m: EmailMessage)
    requires IsImportant(m.subject) && Contains(ToLower(m.subject), MeetingKeyword)
    ensures StepsOf(m) == [ReviewStep(m)] && !IsMeetingOnly(m.subject)
  {
  }

  /** Without messages there are exactly the two general steps. */
  lemma NoMessages()
    ensures Suggestions([]) == SmartMailResult([], [SuggestedNextStep(NoUrgentStep, None), SuggestedNextStep(OrganizeStep, None)])
  {
  }
}
