/** The testimonial form (`app/testimonial/TestimonialClient.tsx`): a comment,
    an email and an optional rating for the visit named in the link, sent as
    one row of `visit_testimonials`. */
module Testimonial {
  import opened Common
  import opened Text
  import CheckinRules

  const FallbackMessage := "Unable to submit feedback."

  /** The row inserted into `visit_testimonials`. */
  datatype TestimonialRow = TestimonialRow(visitId: string, email: string, rating: Option<int>, comment: string)

  /** `canSubmit`: a visit id, a non-blank comment, and a trimmed email
      matching the pattern the check-in page uses. */
  predicate CanSubmit(visitId: string, email: string, comment: string)
    ensures CanSubmit(visitId, email, comment) ==> visitId != "" && !IsBlank(comment) && '@' in Trim(email)
  {
    visitId != "" && Trim(comment) != "" && CheckinRules.IsEmailValid(email)
  }

  /** The gate spelled out against the email pattern itself. */
  lemma CanSubmitIff(visitId: string, email: string, comment: string)
    ensures CanSubmit(visitId, email, comment) <==>
            visitId != "" && !IsBlank(comment) && |Trim(email)| > 0 && CheckinRules.MatchesEmailPattern(Trim(email))
  {
    CheckinRules.EmailValidIff(email);
  }

  /** Padding around the comment and the email never changes the gate. */
  lemma CanSubmitIgnoresPadding(visitId: string, email: string, comment: string)
    ensures CanSubmit(visitId, Trim(email), Trim(comment)) == CanSubmit(visitId, email, comment)
  {
    TrimIdempotent(email);
    TrimIdempotent(comment);
  }

  /** The row a submission sends: the visit id, the trimmed email, the rating
      and the trimmed comment. */
  function RowOf(visitId: string, email: string, rating: Option<int>, comment: string): (row: TestimonialRow)
    ensures row.visitId == visitId && row.rating == rating
    ensures row.email == Trim(email) && row.comment == Trim(comment)
  {
    TestimonialRow(visitId, Trim(email), rating, Trim(comment))
  }

  /** A row the gate lets through has a non-blank comment and an email that
      is itself valid. */
  lemma RowOfSubmittable(visitId: string, email: string, rating: Option<int>, comment: string)
    requires CanSubmit(visitId, email, comment)
    ensures var row := RowOf(visitId, email, rating, comment);
            row.visitId != "" && !IsBlank(row.comment) && CheckinRules.IsEmailValid(row.email)
  {
    TrimIdempotent(email);
    TrimIdempotent(comment);
  }

  class TestimonialForm {
    /** `searchParams.get("visitId") ?? ""` */
    const visitId: string
    var email: string
    var comment: string
    var rating: Option<int>
    var isSubmitting: bool
    var submitError: Option<string>
    var submitSuccess: bool

    /** The rating buttons offer 1 to 5, and Clear sets none. */
    predicate Valid()
      reads this
    {
      rating.None? || 1 <= rating.value <= 5
    }

    constructor(query: Option<string>)
      ensures Valid()
      ensures visitId == query.GetOr("") && email == "" && comment == "" && rating.None?
      ensures !isSubmitting && submitError.None? && !submitSuccess
    {
      visitId := query.GetOr("");
      email := "";
      comment := "";
      rating := None;
      isSubmitting := false;
      submitError := None;
      submitSuccess := false;
    }

    method SetEmail(value: string)
      requires Valid()
      modifies this
      ensures Valid() && email == value
      ensures comment == old(comment) && rating == old(rating) && isSubmitting == old(isSubmitting)
      ensures submitError == old(submitError) && submitSuccess == old(submitSuccess)
    {
      email := value;
    }

    method SetComment(value: string)
      requires Valid()
      modifies this
      ensures Valid() && comment == value
      ensures email == old(email) && rating == old(rating) && isSubmitting == old(isSubmitting)
      ensures submitError == old(submitError) && submitSuccess == old(submitSuccess)
    {
      comment := value;
    }

    /** One of the five rating buttons. */
    method SelectRating(value: int)
      requires Valid() && 1 <= value <= 5
      modifies this
      ensures Valid() && rating == Some(value)
      ensures email == old(email) && comment == old(comment) && isSubmitting == old(isSubmitting)
      ensures submitError == old(submitError) && submitSuccess == old(submitSuccess)
    {
      rating := Some(value);
    }

    /** The Clear button. */
    method ClearRating()
      requires Valid()
      modifies this
      ensures Valid() && rating.None?
      ensures email == old(email) && comment == old(comment) && isSubmitting == old(isSubmitting)
      ensures submitError == old(submitError) && submitSuccess == old(submitSuccess)
    {
      rating := None;
    }

    /** The synchronous start of `handleSubmit`: nothing happens when the
        form cannot be submitted or a submission is in flight; otherwise the
        flags are reset and the row to insert is returned. */
    method BeginSubmit() returns (row: Option<TestimonialRow>)
      requires Valid()
      modifies this
      ensures Valid()
      ensures email == old(email) && comment == old(comment) && rating == old(rating)
      ensures !CanSubmit(visitId, old(email), old(comment)) || old(isSubmitting) ==>
                row.None? && isSubmitting == old(isSubmitting) &&
                submitError == old(submitError) && submitSuccess == old(submitSuccess)
      ensures CanSubmit(visitId, old(email), old(comment)) && !old(isSubmitting) ==>
                row == Some(RowOf(visitId, old(email), old(rating), old(comment))) &&
                isSubmitting && submitError.None? && !submitSuccess
    {
      var ready := CanSubmit(visitId, email, comment);
      if !ready || isSubmitting {
        return None;
      }
      var sent := RowOf(visitId, email, rating, comment);
      isSubmitting, submitError, submitSuccess := true, None, false;
      row := Some(sent);
    }

    /** The insert settled: `None` when it succeeded, else what it threw. */
    method FinishSubmit(insertError: Option<Thrown>)
      requires Valid()
      modifies this
      ensures Valid() && !isSubmitting && email == old(email)
      ensures insertError.None? ==>
                submitSuccess && comment == "" && rating.None? && submitError == old(submitError)
      ensures insertError.Some? ==>
                submitError == Some(MessageOr(insertError.value, FallbackMessage)) &&
                comment == old(comment) && rating == old(rating) && submitSuccess == old(submitSuccess)
    {
      if insertError.None? {
        submitSuccess := true;
        comment := "";
        rating := None;
      } else {
        submitError := Some(MessageOr(insertError.value, FallbackMessage));
      }
      isSubmitting := false;
    }
  }

  /** A successful submission leaves the form ungated until a new comment is
      typed, so the same feedback is not sent twice. */
  lemma ClearedCommentBlocksResubmit(visitId: string, email: string)
    ensures !CanSubmit(visitId, email, "")
  {
    assert IsBlank("");
  }
}
