/** What the three step pages under src/pages share: the outcome of a step's
    submit handler. */
module Pages {
  import opened FormTypes
  import opened Routes

  /** What a page handler decides: the error map it shows and where it
      navigates, if anywhere. */
  datatype Submission = Submission(errors: FieldErrors, next: Option<Step>)
}
