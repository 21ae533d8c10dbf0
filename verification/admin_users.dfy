/** The user administration page: the create/edit form with its reset, and
    the activate/deactivate toggle. The backend's answers are inputs. */
module AdminUsers {
  import opened Wrappers
  import opened JsText

  /** A user row as the table returns it; the text columns may be null. */
  datatype UserRow = UserRow(
    id: string, name: Option<string>, email: Option<string>, role: string,
    code: Option<string>, phone: Option<string>, isActive: bool)

  datatype FormData = FormData(name: string, email: string, role: string, code: string, phone: string)

  const DefaultRole: string := "USER"

  /** The two roles the form's selector offers. */
  const RoleOptions: seq<string> := ["USER", "MASTER"]

  const EmptyForm: FormData := FormData("", "", DefaultRole, "", "")

  datatype PageState = PageState(
    form: FormData, editing: Option<UserRow>, showForm: bool,
    isLoading: bool, error: string, message: string)

  predicate FormClosed(p: PageState) {
    !p.showForm && p.editing.None? && p.form == EmptyForm
  }

  /** Editing a user: null text columns become empty fields, the role is
      copied as stored, and the form opens. */
  function HandleEdit(p: PageState, user: UserRow): (q: PageState)
    ensures q.editing == Some(user) && q.showForm
    ensures q.form.role == user.role
    ensures user.name.Some? ==> q.form.name == user.name.value
    ensures user.name.None? ==> q.form.name == []
    ensures user.email.Some? ==> q.form.email == user.email.value
    ensures user.email.None? ==> q.form.email == []
    ensures user.code.Some? ==> q.form.code == user.code.value
    ensures user.code.None? ==> q.form.code == []
    ensures user.phone.Some? ==> q.form.phone == user.phone.value
    ensures user.phone.None? ==> q.form.phone == []
    ensures q.isLoading == p.isLoading && q.error == p.error && q.message == p.message
  {
    p.(editing := Some(user),
       form := FormData(OrEmpty(user.name), OrEmpty(user.email), user.role, OrEmpty(user.code), OrEmpty(user.phone)),
       showForm := true)
  }

  /** Choosing a role in the selector. */
  function SelectRole(p: PageState, choice: nat): (q: PageState)
    requires choice < |RoleOptions|
    ensures q.form.role in RoleOptions && q.form.role == RoleOptions[choice]
    ensures q.form.(role := p.form.role) == p.form && q.(form := p.form) == p
  {
    p.(form := p.form.(role := RoleOptions[choice]))
  }

  function Cancel(p: PageState): (q: PageState)
    ensures FormClosed(q)
    ensures q.isLoading == p.isLoading && q.error == p.error && q.message == p.message
  {
    p.(showForm := false, editing := None, form := EmptyForm)
  }

  /** The write a submit sends: an update of the form's fields on the edited
      user's row, or an insert of a new, active row. */
  datatype Write = Update(id: string, fields: FormData) | Insert(fields: FormData, isActive: bool)

  const UpdatedMessage: string := "사용자가 수정되었습니다."
  const CreatedMessage: string := "사용자가 생성되었습니다."
  const FailedMessage: string := "오류가 발생했습니다."

  datatype SubmitStep = SubmitStep(write: Write, page: PageState, refetch: bool)

  /** `outcome` is the backend's answer: success, or an error whose message
      may be missing. */
  function HandleSubmit(p: PageState, outcome: Result<(), Option<string>>): (r: SubmitStep)
    ensures r.write.Update? <==> p.editing.Some?
    ensures r.write.fields == p.form
    ensures r.write.Update? ==> r.write.id == p.editing.value.id
    ensures r.write.Insert? ==> r.write.isActive
    ensures !r.page.isLoading
    ensures r.refetch <==> outcome.Ok?
    ensures outcome.Ok? ==>
              && FormClosed(r.page) && r.page.error == []
              && r.page.message == (if r.write.Update? then UpdatedMessage else CreatedMessage)
    ensures outcome.Err? ==>
              && r.page.form == p.form && r.page.editing == p.editing && r.page.showForm == p.showForm
              && r.page.message == p.message && r.page.error != []
              && (r.page.error == FailedMessage || Some(r.page.error) == outcome.error)
    ensures outcome.Err? && outcome.error.Some? && outcome.error.value != [] ==> r.page.error == outcome.error.value
  {
    var write :=
      match p.editing
      case Some(user) => Update(user.id, p.form)
      case None => Insert(p.form, true);
    match outcome
    case Ok(_) =>
      var message := if write.Update? then UpdatedMessage else CreatedMessage;
      SubmitStep(write, Cancel(p).(isLoading := false, error := "", message := message), true)
    case Err(reason) =>
      SubmitStep(write, p.(isLoading := false, error := OrNull(reason, FailedMessage)), false)
  }

  /** The role in the form stays one of the selector's options through
      cancelling, choosing and submitting; editing keeps it there exactly when
      the edited user's stored role is one of them. */
  lemma RoleStaysOffered(p: PageState, user: UserRow, choice: nat, outcome: Result<(), Option<string>>)
    requires choice < |RoleOptions|
    ensures Cancel(p).form.role in RoleOptions
    ensures SelectRole(p, choice).form.role in RoleOptions
    ensures p.form.role in RoleOptions ==> HandleSubmit(p, outcome).page.form.role in RoleOptions
    ensures HandleEdit(p, user).form.role in RoleOptions <==> user.role in RoleOptions
  {
  }

  datatype ToggleStep = ToggleStep(id: string, newActive: bool, page: PageState, refetch: bool)

  const StatusFailedMessage: string := "상태 변경 중 오류가 발생했습니다."

  function ToggledMessage(nowActive: bool): string {
    "사용자가 " + (if nowActive then "활성화" else "비활성화") + "되었습니다."
  }

  /** Toggling writes the negation of the status the row showed; on success
      the message names the new status, on failure only the error changes. */
  function ToggleUserStatus(p: PageState, userId: string, isActive: bool,
                            outcome: Result<(), Option<string>>): (r: ToggleStep)
    ensures r.id == userId && r.newActive == !isActive
    ensures r.refetch <==> outcome.Ok?
    ensures outcome.Ok? ==> r.page == p.(message := ToggledMessage(r.newActive))
    ensures outcome.Err? ==>
              && r.page.message == p.message && r.page.form == p.form && r.page.editing == p.editing
              && r.page.error != []
              && (r.page.error == StatusFailedMessage || Some(r.page.error) == outcome.error)
    ensures outcome.Err? && outcome.error.Some? && outcome.error.value != [] ==> r.page.error == outcome.error.value
    ensures outcome.Err? ==> r.page == p.(error := r.page.error)
  {
    match outcome
    case Ok(_) => ToggleStep(userId, !isActive, p.(message := ToggledMessage(!isActive)), true)
    case Err(reason) => ToggleStep(userId, !isActive, p.(error := OrNull(reason, StatusFailedMessage)), false)
  }

  /** The success message says "activated" exactly when the user is now
      active, and the two messages differ. */
  lemma ToggleMessageNamesNewState(isActive: bool)
    ensures ToggledMessage(!isActive) == ToggledMessage(true) <==> !isActive
    ensures ToggledMessage(true) != ToggledMessage(false)
  {
    assert ToggledMessage(true)[5] != ToggledMessage(false)[5];
  }

  /** The user table, keyed by id. */
  type Table = map<string, UserRow>

  /** `update({ isActive })` filtered by `eq('id', id)`: the row with that id,
      if any, gets the new status; nothing else changes. */
  function SetStatus(t: Table, id: string, active: bool): (u: Table)
    ensures u.Keys == t.Keys
    ensures id in t ==> u[id] == t[id].(isActive := active)
    ensures forall k :: k in t && k != id ==> u[k] == t[k]
  {
    if id in t then t[id := t[id].(isActive := active)] else t
  }

  /** The table after a toggle: the write lands only when the backend
      answered with success. */
  function AfterToggle(t: Table, step: ToggleStep): (u: Table)
    ensures step.refetch ==> u == SetStatus(t, step.id, step.newActive)
    ensures !step.refetch ==> u == t
  {
    if step.refetch then SetStatus(t, step.id, step.newActive) else t
  }

  /** After a successful toggle of a listed user, the refetched row shows the
      opposite status, and the message names the status the row now shows. */
  lemma ToggleFlipsStoredStatus(p: PageState, t: Table, id: string)
    requires id in t
    ensures var step := ToggleUserStatus(p, id, t[id].isActive, Ok(()));
            var u := AfterToggle(t, step);
            && u[id].isActive == !t[id].isActive
            && step.page.message == ToggledMessage(u[id].isActive)
            && (forall k :: k in t && k != id ==> u[k] == t[k])
  {
  }

  /** Toggling a user twice from the refetched list, both times successfully,
      gives back exactly the table it started from. */
  lemma ToggleTwiceRestores(p: PageState, t: Table, id: string)
    requires id in t
    ensures var first := ToggleUserStatus(p, id, t[id].isActive, Ok(()));
            var t1 := AfterToggle(t, first);
            var second := ToggleUserStatus(first.page, id, t1[id].isActive, Ok(()));
            AfterToggle(t1, second) == t
  {
    var first := ToggleUserStatus(p, id, t[id].isActive, Ok(()));
    var t1 := AfterToggle(t, first);
    var second := ToggleUserStatus(first.page, id, t1[id].isActive, Ok(()));
    var t2 := AfterToggle(t1, second);
    assert t2[id] == t[id];
    SameTable(t2, t);
  }

  lemma SameTable(a: Table, b: Table)
    requires a.Keys == b.Keys
    requires forall k :: k in a ==> a[k] == b[k]
    ensures a == b
  {
  }
}
