/**
 * The administrator's status change (app/admin/cases/actions.ts): the caller must be an
 * administrator, the form must name a case and carry a status, and the status write goes
 * through the case store. A thrown error is a `Fail` carrying its message; the cache
 * revalidation that follows a successful write is not part of this model.
 */
module AdminActions {
  import opened Wrappers
  import opened Http
  import opened Cases
  import opened IntakeSubmit
  import opened Admin

  const MissingCaseId := "Missing case identifier"
  const MissingStatus := "Missing status value"

  /** The text of a form field that is a non-empty string. */
  predicate NamesCase(form: Form) {
    "caseId" in form && form["caseId"].Text? && form["caseId"].text != ""
  }

  /** A form field `status` that is a string (possibly empty). */
  predicate CarriesStatus(form: Form) {
    "status" in form && form["status"].Text?
  }

  /**
   * `updateCaseStatusAction`. Checks run in order: administrator, case id, status, then
   * the store's own status check and row lookup. Only a call that passes every check
   * writes, and it writes only the status of the named case.
   */
  method UpdateCaseStatusAction(store: CaseStore, config: Option<string>, session: Option<SessionUser>, form: Form)
      returns (r: Outcome)
    requires store.Valid()
    modifies store
    ensures store.Valid()
    ensures RequireAdminSession(config, session).Fail? ==> r == Fail(Unauthorized) && store.cases == old(store.cases)
    ensures RequireAdminSession(config, session).Pass? && !NamesCase(form) ==>
              r == Fail(MissingCaseId) && store.cases == old(store.cases)
    ensures RequireAdminSession(config, session).Pass? && NamesCase(form) && !CarriesStatus(form) ==>
              r == Fail(MissingStatus) && store.cases == old(store.cases)
    ensures r.Pass? <==>
              && RequireAdminSession(config, session).Pass? && NamesCase(form) && CarriesStatus(form)
              && IsStatusKey(form["status"].text) && form["caseId"].text in old(store.cases)
    ensures r.Pass? ==> store.cases == WithStatus(old(store.cases), form["caseId"].text, form["status"].text)
    ensures r.Fail? ==> store.cases == old(store.cases)
  {
    var admin := RequireAdminSession(config, session);
    if admin.Fail? {
      return admin;
    }
    var caseId := Get(form, "caseId");
    var statusValue := Get(form, "status");
    if caseId.None? || !caseId.value.Text? || caseId.value.text == "" {
      return Fail(MissingCaseId);
    }
    if statusValue.None? || !statusValue.value.Text? {
      return Fail(MissingStatus);
    }
    r := store.UpdateCaseStatusById(caseId.value.text, statusValue.value.text);
  }
}
