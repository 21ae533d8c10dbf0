/** The wireless subscription page. Its form registers inputs for the name,
    phone, birth date, address and the four selections only; the postal code,
    detail address and authentication value are never collected, so they reach
    the schema as missing values. */
module WirelessNewPage {
  import opened Wrappers
  import opened Schema
  import opened WirelessSchema
  import opened AuthContext
  import opened Submission

  const ListPath: string := "/wireless"

  /** The row sent to the wireless-form table. */
  datatype WirelessRow = WirelessRow(
    name: string, phone: string, birthDate: string,
    address: string, detailAddress: Option<string>, zipCode: string,
    authMethod: string, authValue: Option<string>, simPurchase: string,
    planName: string, contractPeriod: string,
    authorId: Option<string>, status: string)

  function Payload(data: WirelessForm, user: Option<User>, toIso: string -> string): (row: WirelessRow)
    ensures row.status == PendingStatus
    ensures row.authorId.Some? <==> user.Some?
    ensures user.Some? ==> row.authorId == Some(user.value.id)
  {
    WirelessRow(
      data.name, data.phone, toIso(data.birthDate),
      data.address, data.detailAddress, data.zipCode,
      data.authMethod, data.authValue, data.simPurchase,
      data.planName, data.contractPeriod,
      AuthorId(user), PendingStatus)
  }

  /** Reads a stored row back as form data. */
  function FormOf(row: WirelessRow): WirelessForm {
    WirelessForm(
      row.name, row.phone, row.birthDate,
      row.address, row.detailAddress, row.zipCode,
      row.authMethod, row.authValue, row.simPurchase,
      row.planName, row.contractPeriod)
  }

  /** The inserted row is the validated data with only the birth date
      converted. */
  lemma PayloadCarriesForm(data: WirelessForm, user: Option<User>, toIso: string -> string)
    ensures FormOf(Payload(data, user, toIso)) == data.(birthDate := toIso(data.birthDate))
  {
  }

  datatype SubmitAttempt = SubmitAttempt(fieldErrors: map<Field, string>, inserted: Option<WirelessRow>, state: SubmitState)

  function Submit(values: Input, user: Option<User>, toIso: string -> string,
                  insert: Result<(), Option<string>>, prior: SubmitState): (a: SubmitAttempt)
    ensures a.inserted.Some? <==> Acceptable(values)
    ensures !Acceptable(values) ==> a.state == prior && a.fieldErrors != map[]
    ensures !Acceptable(values) ==> forall f :: f in a.fieldErrors <==> !FieldPasses(values, f)
    ensures Acceptable(values) ==>
              && a.fieldErrors == map[]
              && a.inserted.value.status == PendingStatus
              && a.inserted.value.authorId == AuthorId(user)
              && FormOf(a.inserted.value) == Validate(values).value.(birthDate := toIso(values.birthDate.value))
              && a.state == Finish(insert, ListPath)
  {
    match Validate(values)
    case Err(errors) => SubmitAttempt(errors, None, prior)
    case Ok(data) =>
      PayloadCarriesForm(data, user, toIso);
      SubmitAttempt(map[], Some(Payload(data, user, toIso)), Finish(insert, ListPath))
  }

  /** The values this page's form hands to the schema: what the user typed or
      chose in the eight registered inputs, and nothing for the rest. */
  function PageValues(name: string, phone: string, birthDate: string, address: string,
                      authMethod: string, simPurchase: string, planName: string,
                      contractPeriod: string): (i: Input)
    ensures i.zipCode.None? && i.detailAddress.None? && i.authValue.None?
    ensures forall f :: f !in {ZipCode, DetailAddress, AuthValue} ==> ValueOf(i, f).Some?
  {
    Input(Some(name), Some(phone), Some(birthDate), Some(address), None, None,
          Some(authMethod), None, Some(simPurchase), Some(planName), Some(contractPeriod))
  }

  /** Whatever the user enters, the page never inserts: the missing postal code
      is always rejected with the schema's generic required message. */
  lemma PageNeverSubmits(name: string, phone: string, birthDate: string, address: string,
                         authMethod: string, simPurchase: string, planName: string,
                         contractPeriod: string, user: Option<User>, toIso: string -> string,
                         insert: Result<(), Option<string>>, prior: SubmitState)
    ensures var a := Submit(PageValues(name, phone, birthDate, address, authMethod, simPurchase,
                                       planName, contractPeriod), user, toIso, insert, prior);
            && a.inserted.None? && a.state == prior
            && ZipCode in a.fieldErrors && a.fieldErrors[ZipCode] == RequiredMessage
  {
    var i := PageValues(name, phone, birthDate, address, authMethod, simPurchase, planName, contractPeriod);
    RejectionMessages(i);
  }

  /** The page with a postal-code input registered, as the schema expects. */
  function CorrectedPageValues(name: string, phone: string, birthDate: string, address: string,
                               zipCode: string, authMethod: string, simPurchase: string,
                               planName: string, contractPeriod: string): (i: Input)
    ensures i.zipCode == Some(zipCode) && i.detailAddress.None? && i.authValue.None?
    ensures forall f :: f !in {DetailAddress, AuthValue} ==> ValueOf(i, f).Some?
  {
    Input(Some(name), Some(phone), Some(birthDate), Some(address), None, Some(zipCode),
          Some(authMethod), None, Some(simPurchase), Some(planName), Some(contractPeriod))
  }

  /** With the postal code collected, values that meet every length rule are
      inserted, carrying what the user entered. */
  lemma CorrectedPageSubmits(name: string, phone: string, birthDate: string, address: string,
                             zipCode: string, authMethod: string, simPurchase: string,
                             planName: string, contractPeriod: string, user: Option<User>,
                             toIso: string -> string, insert: Result<(), Option<string>>,
                             prior: SubmitState)
    requires |name| >= 2 && |phone| >= 10 && |birthDate| >= 1 && |address| >= 1 && |zipCode| >= 1
    requires |authMethod| >= 1 && |simPurchase| >= 1 && |planName| >= 1 && |contractPeriod| >= 1
    ensures var a := Submit(CorrectedPageValues(name, phone, birthDate, address, zipCode, authMethod,
                                                simPurchase, planName, contractPeriod),
                            user, toIso, insert, prior);
            && a.inserted.Some? && a.fieldErrors == map[]
            && a.inserted.value.zipCode == zipCode && a.inserted.value.name == name
            && a.inserted.value.birthDate == toIso(birthDate)
            && a.state == Finish(insert, ListPath)
  {
    var i := CorrectedPageValues(name, phone, birthDate, address, zipCode, authMethod,
                                 simPurchase, planName, contractPeriod);
    assert Acceptable(i);
    var data := Validate(i).value;
    assert data.zipCode == zipCode && data.name == name && data.birthDate == birthDate;
  }
}
