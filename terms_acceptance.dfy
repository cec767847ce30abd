/**
  The terms-acceptance form (src/components/TermsAcceptance.tsx): its `formData` and
  `isSubmitting` state, the per-field change handlers, `handleSubmit` and the deferred
  completion that `handleSubmit` schedules with `setTimeout`.
 */
module TermsForm {
  import opened Wrappers

  datatype FormData = FormData(name: string, email: string, mobile: string, accepted: bool)

  /** The form as first rendered and as reset after a submission. */
  const EmptyForm: FormData := FormData("", "", "", false)

  /** The two validation toasts: "INCOMPLETE FORM" and "TERMS NOT ACCEPTED". */
  datatype FormError = IncompleteForm | TermsNotAccepted

  /**
    The validation `handleSubmit` applies before anything else. Presence means a non-empty
    string, nothing more (no trimming), and a missing field is reported before a missing
    consent. `None` means the submission goes ahead.
   */
  function Validate(f: FormData): (r: Option<FormError>)
    ensures r == Some(IncompleteForm) <==> f.name == [] || f.email == [] || f.mobile == []
    ensures r == Some(TermsNotAccepted) <==>
              f.name != [] && f.email != [] && f.mobile != [] && !f.accepted
    ensures r == None <==> f.name != [] && f.email != [] && f.mobile != [] && f.accepted
  {
    if f.name == "" || f.email == "" || f.mobile == "" then Some(IncompleteForm)
    else if !f.accepted then Some(TermsNotAccepted)
    else None
  }

  class TermsAcceptance {
    var formData: FormData
    var isSubmitting: bool
    /** Completion callbacks scheduled by `handleSubmit` that have not run yet. */
    var pendingCompletions: nat

    /** The submit button shows "PROCESSING..." only while a completion is still due. */
    ghost predicate Valid()
      reads this
    {
      isSubmitting ==> pendingCompletions > 0
    }

    constructor ()
      ensures Valid()
      ensures formData == EmptyForm && !isSubmitting && pendingCompletions == 0
    {
      formData := EmptyForm;
      isSubmitting := false;
      pendingCompletions := 0;
    }

    method SetName(value: string)
      requires Valid()
      modifies this
      ensures Valid()
      ensures formData == old(formData).(name := value)
      ensures isSubmitting == old(isSubmitting) && pendingCompletions == old(pendingCompletions)
    {
      formData := formData.(name := value);
    }

    method SetEmail(value: string)
      requires Valid()
      modifies this
      ensures Valid()
      ensures formData == old(formData).(email := value)
      ensures isSubmitting == old(isSubmitting) && pendingCompletions == old(pendingCompletions)
    {
      formData := formData.(email := value);
    }

    method SetMobile(value: string)
      requires Valid()
      modifies this
      ensures Valid()
      ensures formData == old(formData).(mobile := value)
      ensures isSubmitting == old(isSubmitting) && pendingCompletions == old(pendingCompletions)
    {
      formData := formData.(mobile := value);
    }

    method SetAccepted(checked: bool)
      requires Valid()
      modifies this
      ensures Valid()
      ensures formData == old(formData).(accepted := checked)
      ensures isSubmitting == old(isSubmitting) && pendingCompletions == old(pendingCompletions)
    {
      formData := formData.(accepted := checked);
    }

    /**
      `handleSubmit`: returns the validation toast, if any. A rejected submission changes
      nothing; an accepted one starts submitting and schedules one completion. The form
      itself is never touched here.
     */
    method HandleSubmit() returns (error: Option<FormError>)
      requires Valid()
      modifies this
      ensures Valid()
      ensures error == Validate(old(formData))
      ensures formData == old(formData)
      ensures error != None ==>
                isSubmitting == old(isSubmitting) && pendingCompletions == old(pendingCompletions)
      ensures error == None ==>
                isSubmitting && pendingCompletions == old(pendingCompletions) + 1
    {
      if formData.name == "" || formData.email == "" || formData.mobile == "" {
        return Some(IncompleteForm);
      }
      if !formData.accepted {
        return Some(TermsNotAccepted);
      }
      isSubmitting := true;
      pendingCompletions := pendingCompletions + 1;
      return None;
    }

    /** The deferred callback: "SUBMISSION RECORDED", not submitting, the form cleared. */
    method Complete()
      requires Valid() && pendingCompletions > 0
      modifies this
      ensures Valid()
      ensures formData == EmptyForm && !isSubmitting
      ensures pendingCompletions == old(pendingCompletions) - 1
    {
      isSubmitting := false;
      formData := EmptyForm;
      pendingCompletions := pendingCompletions - 1;
    }
  }

  /** A form whose fields hold only spaces passes validation: presence is not trimmed. */
  lemma BlankFieldsPass()
    ensures Validate(FormData(" ", " ", " ", true)) == None
  {
  }

  /** A complete submission followed by its completion leaves the form as first rendered. */
  method SubmitThenComplete(form: TermsAcceptance)
    requires form.Valid()
    requires Validate(form.formData) == None
    modifies form
    ensures form.Valid()
    ensures form.formData == EmptyForm && !form.isSubmitting
    ensures form.pendingCompletions == old(form.pendingCompletions)
  {
    var error := form.HandleSubmit();
    form.Complete();
  }
}
