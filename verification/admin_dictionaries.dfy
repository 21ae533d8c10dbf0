/** The dictionary administration page: the category filter over the full
    entry list, and the create/edit form with its reset. The HTTP API's
    answers are inputs. */
module AdminDictionaries {
  import opened Wrappers
  import opened JsText
  import opened Decimal
  import opened Dictionary

  /** The categories the form offers, in display order. */
  const Categories: seq<string> :=
    ["SERVICE_TYPE", "PLAN_NAME", "CONTRACT_PERIOD", "AUTH_METHOD", "SIM_PURCHASE", "BANK_LIST"]

  /** The list the page shows: everything when no category is selected,
      otherwise the entries of the selected category in their original order. */
  function Filter(entries: seq<Entry>, selected: string): (r: seq<Entry>)
    ensures selected == [] ==> r == entries
    ensures selected != [] ==> forall e :: e in r <==> e in entries && e.category == selected
    ensures Subsequence(r, entries)
  {
    if selected == [] then
      SubsequenceOfSelf(entries);
      entries
    else OfCategory(entries, selected)
  }

  lemma {:induction false} SubsequenceOfSelf<T>(s: seq<T>)
    ensures Subsequence(s, s)
  {
    if s != [] {
      SubsequenceOfSelf(Init(s));
      assert Init(s) + [Last(s)] == s;
    }
  }

  /** Filtering by a category gives the same list the grouping keeps for it,
      and nothing for a category with no entries. */
  lemma FilterAgreesWithGroup(entries: seq<Entry>, c: string)
    requires c != []
    ensures c in Group(entries) ==> Filter(entries, c) == Group(entries)[c]
    ensures c !in Group(entries) ==> Filter(entries, c) == []
  {
  }

  datatype FormData = FormData(category: string, name: string, value: string, order: int)

  const EmptyForm: FormData := FormData("", "", "", 0)

  datatype PageState = PageState(
    entries: seq<Entry>, selectedCategory: string,
    form: FormData, editing: Option<Entry>, showForm: bool,
    isLoading: bool, error: string, message: string)

  /** What the order input stores: `parseInt(text) || 0`, so anything that
      does not start with a number (and a zero) becomes 0. Stated on the
      text: the value of its leading digits, negated after a minus sign,
      and 0 when the text starts with anything else. */
  function OrderInput(text: string): (order: int)
    ensures text == [] || (!IsDigit(text[0]) && !IsSign(text[0])) ==> order == 0
    ensures text != [] && IsDigit(text[0]) ==> order == Value(DigitPrefix(text))
    ensures text != [] && text[0] == '+' ==> order == Value(DigitPrefix(text[1..]))
    ensures text != [] && text[0] == '-' ==> order == -(Value(DigitPrefix(text[1..])) as int)
  {
    if text != [] && IsDigit(text[0]) then
      UnsignedBody(text);
      ParseInt(text).GetOr(0)
    else ParseInt(text).GetOr(0)
  }

  /** A number typed in decimal is stored as that number, with its sign, and
      whatever follows its digits (a fraction, an exponent) is dropped. */
  lemma OrderInputReadsLeadingNumber(n: nat, t: string)
    requires t == [] || !IsDigit(t[0])
    ensures OrderInput(Show(n) + t) == n
    ensures OrderInput(['-'] + (Show(n) + t)) == -(n as int)
  {
    ParseIntReadsLeadingNumber(n, t);
  }

  /** Text that does not start with a sign or a digit is stored as 0. */
  lemma NonNumericOrderIsZero(text: string)
    requires text == [] || (!IsDigit(text[0]) && !IsSign(text[0]))
    ensures OrderInput(text) == 0
  {
  }

  /** Editing an entry loads its four editable fields and opens the form. */
  function HandleEdit(p: PageState, item: Entry): (q: PageState)
    ensures q.editing == Some(item) && q.showForm
    ensures q.form.category == item.category && q.form.name == item.name
    ensures q.form.value == item.value && q.form.order == item.order
    ensures q.entries == p.entries && q.selectedCategory == p.selectedCategory
    ensures q.isLoading == p.isLoading && q.error == p.error && q.message == p.message
  {
    p.(editing := Some(item), form := FormData(item.category, item.name, item.value, item.order), showForm := true)
  }

  /** The closed form: no entry being edited and every field back to its
      default. */
  predicate FormClosed(p: PageState) {
    !p.showForm && p.editing.None? && p.form == EmptyForm
  }

  function Cancel(p: PageState): (q: PageState)
    ensures FormClosed(q)
    ensures q.entries == p.entries && q.selectedCategory == p.selectedCategory
    ensures q.isLoading == p.isLoading && q.error == p.error && q.message == p.message
  {
    p.(showForm := false, editing := None, form := EmptyForm)
  }

  datatype Request = Put(path: string, body: FormData) | Post(path: string, body: FormData)

  const CollectionPath: string := "/dictionaries"

  /** The API's answer: success, or a failure whose response body may carry
      an error text. */
  datatype ApiOutcome = ApiOk | ApiFailed(responseError: Option<string>)

  const UpdatedMessage: string := "사전 항목이 수정되었습니다."
  const CreatedMessage: string := "사전 항목이 생성되었습니다."
  const FailedMessage: string := "오류가 발생했습니다."

  /** A submit: the request sent, the page after it, and whether the list is
      fetched again. */
  datatype SubmitStep = SubmitStep(request: Request, page: PageState, refetch: bool)

  function HandleSubmit(p: PageState, outcome: ApiOutcome): (r: SubmitStep)
    ensures r.request.Put? <==> p.editing.Some?
    ensures r.request.body == p.form
    ensures r.request.Put? ==> r.request.path == CollectionPath + "/" + p.editing.value.id
    ensures r.request.Post? ==> r.request.path == CollectionPath
    ensures !r.page.isLoading && r.page.entries == p.entries && r.page.selectedCategory == p.selectedCategory
    ensures r.refetch <==> outcome.ApiOk?
    ensures outcome.ApiOk? ==>
              && FormClosed(r.page) && r.page.error == []
              && r.page.message == (if r.request.Put? then UpdatedMessage else CreatedMessage)
    ensures outcome.ApiFailed? ==>
              && r.page.form == p.form && r.page.editing == p.editing && r.page.showForm == p.showForm
              && r.page.message == p.message && r.page.error != []
              && (r.page.error == FailedMessage || Some(r.page.error) == outcome.responseError)
    ensures outcome.ApiFailed? && outcome.responseError.Some? && outcome.responseError.value != [] ==>
              r.page.error == outcome.responseError.value
  {
    var request :=
      match p.editing
      case Some(item) => Put(CollectionPath + "/" + item.id, p.form)
      case None => Post(CollectionPath, p.form);
    match outcome
    case ApiOk =>
      var message := if request.Put? then UpdatedMessage else CreatedMessage;
      SubmitStep(request, Cancel(p).(isLoading := false, error := "", message := message), true)
    case ApiFailed(responseError) =>
      SubmitStep(request, p.(isLoading := false, error := OrNull(responseError, FailedMessage)), false)
  }

  /** After a successful submit the next submit creates a new, empty entry:
      the edit does not linger. */
  lemma SuccessThenSubmitCreates(p: PageState, next: ApiOutcome)
    ensures HandleSubmit(HandleSubmit(p, ApiOk).page, next).request == Post(CollectionPath, EmptyForm)
  {
  }

  /** After a failed submit the form is kept, so submitting again sends the
      same request. */
  lemma RetryAfterFailureResends(p: PageState, failure: Option<string>, next: ApiOutcome)
    ensures HandleSubmit(HandleSubmit(p, ApiFailed(failure)).page, next).request == HandleSubmit(p, next).request
  {
  }

  /** The browser's own checks on the form: the category `<select>` is
      `required` and its only options besides the empty placeholder are the
      listed categories (a value matching no option shows the placeholder),
      the name and value inputs are `required`, and the order input has
      `min="0"`. A form that fails them is not submitted. */
  predicate BrowserAccepts(form: FormData) {
    form.category in Categories && form.name != [] && form.value != [] && form.order >= 0
  }

  /** A click on the submit button: nothing is sent while the form is hidden,
      while the button is disabled (a request in flight) or while the browser
      rejects the form; otherwise the submit handler runs. */
  function Click(p: PageState, outcome: ApiOutcome): (r: Option<SubmitStep>)
    ensures r.Some? <==> p.showForm && !p.isLoading && BrowserAccepts(p.form)
    ensures r.Some? ==> r.value == HandleSubmit(p, outcome)
  {
    if p.showForm && !p.isLoading && BrowserAccepts(p.form) then Some(HandleSubmit(p, outcome)) else None
  }

  /** Every entry the page sends carries one of the listed categories and a
      non-negative order. */
  lemma SentCategoryIsListed(p: PageState, outcome: ApiOutcome)
    requires Click(p, outcome).Some?
    ensures Click(p, outcome).value.request.body.category in Categories
    ensures Click(p, outcome).value.request.body.order >= 0
  {
  }

  /** An entry whose category is not in the list cannot be saved through the
      edit form: the browser blocks the submit. */
  lemma UnlistedCategoryBlocksEdit(p: PageState, item: Entry, outcome: ApiOutcome)
    requires item.category !in Categories
    ensures Click(HandleEdit(p, item), outcome).None?
  {
  }

  /** Editing an entry and submitting sends that entry's fields back to that
      entry's address. */
  lemma EditThenSubmitUpdates(p: PageState, item: Entry, outcome: ApiOutcome)
    ensures HandleSubmit(HandleEdit(p, item), outcome).request
              == Put(CollectionPath + "/" + item.id, FormData(item.category, item.name, item.value, item.order))
  {
  }
}
