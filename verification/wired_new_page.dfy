/** The wired subscription page: what it inserts, when it inserts it, and how
    the address search fills the form. The date conversion of the birth date is
    a parameter (`toIso`). */
module WiredNewPage {
  import opened Wrappers
  import opened WiredSchema
  import opened AuthContext
  import opened Submission

  const ListPath: string := "/wired"

  /** The row sent to the wired-form table: the validated fields (birth date
      converted), the author and the status. */
  datatype WiredRow = WiredRow(
    name: string, phone: string, birthDate: string,
    address: string, detailAddress: Option<string>, zipCode: string,
    paymentMethod: string, accountInfo: Option<string>, cardInfo: Option<string>,
    serviceType: string, planName: string, contractPeriod: string,
    authorId: Option<string>, status: string)

  function Payload(data: WiredForm, user: Option<User>, toIso: string -> string): (row: WiredRow)
    ensures row.status == PendingStatus
    ensures row.authorId.Some? <==> user.Some?
    ensures user.Some? ==> row.authorId == Some(user.value.id)
  {
    WiredRow(
      data.name, data.phone, toIso(data.birthDate),
      data.address, data.detailAddress, data.zipCode,
      PaymentCode(data.paymentMethod), data.accountInfo, data.cardInfo,
      data.serviceType, data.planName, data.contractPeriod,
      AuthorId(user), PendingStatus)
  }

  /** Reads a stored row back as form data. */
  function FormOf(row: WiredRow): Option<WiredForm> {
    var payment :=
      if row.paymentMethod == "ACCOUNT" then Some(Account)
      else if row.paymentMethod == "CARD" then Some(Card)
      else None;
    match payment
    case None => None
    case Some(m) =>
      Some(WiredForm(
        row.name, row.phone, row.birthDate,
        row.address, row.detailAddress, row.zipCode,
        m, row.accountInfo, row.cardInfo,
        row.serviceType, row.planName, row.contractPeriod))
  }

  /** The inserted row is exactly the validated data, with only the birth date
      converted: reading it back gives the form. */
  lemma PayloadCarriesForm(data: WiredForm, user: Option<User>, toIso: string -> string)
    ensures FormOf(Payload(data, user, toIso)) == Some(data.(birthDate := toIso(data.birthDate)))
  {
  }

  /** One submission: the schema runs first; only accepted values reach the
      insert, and only then does the page's state change. */
  datatype SubmitAttempt = SubmitAttempt(fieldErrors: map<Field, string>, inserted: Option<WiredRow>, state: SubmitState)

  function Submit(values: Input, user: Option<User>, toIso: string -> string,
                  insert: Result<(), Option<string>>, prior: SubmitState): (a: SubmitAttempt)
    ensures a.inserted.Some? <==> Acceptable(values)
    ensures !Acceptable(values) ==> a.state == prior && a.fieldErrors != map[]
    ensures !Acceptable(values) ==> forall f :: f in a.fieldErrors <==> !FieldPasses(values, f)
    ensures Acceptable(values) ==>
              && a.fieldErrors == map[]
              && a.inserted.value.status == PendingStatus
              && a.inserted.value.authorId == AuthorId(user)
              && FormOf(a.inserted.value) == Some(Validate(values).value.(birthDate := toIso(values.birthDate.value)))
              && a.state == Finish(insert, ListPath)
  {
    match Validate(values)
    case Err(errors) => SubmitAttempt(errors, None, prior)
    case Ok(data) =>
      PayloadCarriesForm(data, user, toIso);
      SubmitAttempt(map[], Some(Payload(data, user, toIso)), Finish(insert, ListPath))
  }

  /** A form with an empty postal code is never inserted; the postal-code
      field shows its message. */
  lemma EmptyZipBlocksInsert(values: Input, user: Option<User>, toIso: string -> string,
                             insert: Result<(), Option<string>>, prior: SubmitState)
    requires values.zipCode == Some("")
    ensures var a := Submit(values, user, toIso, insert, prior);
            a.inserted.None? && ZipCode in a.fieldErrors && a.fieldErrors[ZipCode] == "우편번호를 입력해주세요"
  {
    RejectionMessages(values);
  }

  /** The address search's callback writes its two arguments into the address
      and postal-code fields and nothing else. */
  function SelectAddress(values: Input, address: string, zipCode: string): (r: Input)
    ensures r.address == Some(address) && r.zipCode == Some(zipCode)
    ensures forall f :: f != Address && f != ZipCode ==> ValueOf(r, f) == ValueOf(values, f)
  {
    values.(address := Some(address), zipCode := Some(zipCode))
  }
}
