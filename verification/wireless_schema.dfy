/** The wireless subscription form's schema. Same shape as the wired one; it
    has no enum field, and its optional fields are the detail address and the
    authentication value. */
module WirelessSchema {
  import opened Wrappers
  import opened Schema

  datatype Field =
    | Name | Phone | BirthDate | Address | DetailAddress | ZipCode
    | AuthMethod | AuthValue | SimPurchase | PlanName | ContractPeriod

  const AllFields: set<Field> :=
    {Name, Phone, BirthDate, Address, DetailAddress, ZipCode,
     AuthMethod, AuthValue, SimPurchase, PlanName, ContractPeriod}

  function RuleOf(f: Field): Rule {
    match f
    case Name => MinLength(2, "이름을 입력해주세요")
    case Phone => MinLength(10, "전화번호를 입력해주세요")
    case BirthDate => MinLength(1, "생년월일을 입력해주세요")
    case Address => MinLength(1, "주소를 입력해주세요")
    case DetailAddress => Optional
    case ZipCode => MinLength(1, "우편번호를 입력해주세요")
    case AuthMethod => MinLength(1, "인증방법을 선택해주세요")
    case AuthValue => Optional
    case SimPurchase => MinLength(1, "유심구매여부를 선택해주세요")
    case PlanName => MinLength(1, "요금제를 선택해주세요")
    case ContractPeriod => MinLength(1, "약정기간을 선택해주세요")
  }

  datatype Input = Input(
    name: Option<string>, phone: Option<string>, birthDate: Option<string>,
    address: Option<string>, detailAddress: Option<string>, zipCode: Option<string>,
    authMethod: Option<string>, authValue: Option<string>, simPurchase: Option<string>,
    planName: Option<string>, contractPeriod: Option<string>)

  function ValueOf(i: Input, f: Field): Option<string> {
    match f
    case Name => i.name
    case Phone => i.phone
    case BirthDate => i.birthDate
    case Address => i.address
    case DetailAddress => i.detailAddress
    case ZipCode => i.zipCode
    case AuthMethod => i.authMethod
    case AuthValue => i.authValue
    case SimPurchase => i.simPurchase
    case PlanName => i.planName
    case ContractPeriod => i.contractPeriod
  }

  datatype WirelessForm = WirelessForm(
    name: string, phone: string, birthDate: string,
    address: string, detailAddress: Option<string>, zipCode: string,
    authMethod: string, authValue: Option<string>, simPurchase: string,
    planName: string, contractPeriod: string)

  /** Acceptance written out constraint by constraint. */
  predicate Acceptable(i: Input) {
    && LongEnough(i.name, 2)
    && LongEnough(i.phone, 10)
    && LongEnough(i.birthDate, 1)
    && LongEnough(i.address, 1)
    && LongEnough(i.zipCode, 1)
    && LongEnough(i.authMethod, 1)
    && LongEnough(i.simPurchase, 1)
    && LongEnough(i.planName, 1)
    && LongEnough(i.contractPeriod, 1)
  }

  predicate FieldPasses(i: Input, f: Field) {
    match f
    case Name => LongEnough(i.name, 2)
    case Phone => LongEnough(i.phone, 10)
    case BirthDate => LongEnough(i.birthDate, 1)
    case Address => LongEnough(i.address, 1)
    case DetailAddress => true
    case ZipCode => LongEnough(i.zipCode, 1)
    case AuthMethod => LongEnough(i.authMethod, 1)
    case AuthValue => true
    case SimPurchase => LongEnough(i.simPurchase, 1)
    case PlanName => LongEnough(i.planName, 1)
    case ContractPeriod => LongEnough(i.contractPeriod, 1)
  }

  lemma AllFieldsListed(f: Field)
    ensures f in AllFields
  {
    match f
    case Name => case Phone => case BirthDate => case Address => case DetailAddress => case ZipCode =>
    case AuthMethod => case AuthValue => case SimPurchase => case PlanName => case ContractPeriod =>
  }

  lemma RuleAgrees(i: Input, f: Field)
    ensures Check(RuleOf(f), ValueOf(i, f)).None? <==> FieldPasses(i, f)
  {
  }

  function ErrorMap(i: Input): (m: map<Field, string>)
    ensures forall f :: f in m <==> !FieldPasses(i, f)
    ensures forall f :: f in m ==> Some(m[f]) == Check(RuleOf(f), ValueOf(i, f))
  {
    var m := map f | f in AllFields && Check(RuleOf(f), ValueOf(i, f)).Some? :: Check(RuleOf(f), ValueOf(i, f)).value;
    assert forall f :: f in m <==> !FieldPasses(i, f) by {
      forall f ensures f in m <==> !FieldPasses(i, f) {
        AllFieldsListed(f);
        RuleAgrees(i, f);
      }
    }
    m
  }

  lemma AcceptableIffNoErrors(i: Input)
    ensures Acceptable(i) <==> ErrorMap(i) == map[]
  {
    var m := ErrorMap(i);
    if m == map[] {
      forall f ensures FieldPasses(i, f) {
        assert f !in m;
      }
      AllPassAccepted(i);
    } else {
      var f :| f in m;
      FailingFieldBlocks(i, f);
    }
  }

  /** Every field passing is enough to accept. */
  lemma AllPassAccepted(i: Input)
    requires forall f :: FieldPasses(i, f)
    ensures Acceptable(i)
  {
    assert FieldPasses(i, Name);
    assert FieldPasses(i, Phone);
    assert FieldPasses(i, BirthDate);
    assert FieldPasses(i, Address);
    assert FieldPasses(i, ZipCode);
    assert FieldPasses(i, AuthMethod);
    assert FieldPasses(i, SimPurchase);
    assert FieldPasses(i, PlanName);
    assert FieldPasses(i, ContractPeriod);
  }

  /** A single failing field is enough to reject. */
  lemma FailingFieldBlocks(i: Input, f: Field)
    requires !FieldPasses(i, f)
    ensures !Acceptable(i)
  {
  }

  function Validate(i: Input): (r: Result<WirelessForm, map<Field, string>>)
    ensures r.Ok? <==> Acceptable(i)
    ensures r.Err? ==> r.error != map[]
    ensures r.Err? ==> r.error == ErrorMap(i)
    ensures r.Err? ==> forall f :: f in r.error <==> !FieldPasses(i, f)
    ensures r.Ok? ==>
              && Some(r.value.name) == i.name && Some(r.value.phone) == i.phone
              && Some(r.value.birthDate) == i.birthDate && Some(r.value.address) == i.address
              && r.value.detailAddress == i.detailAddress && Some(r.value.zipCode) == i.zipCode
              && Some(r.value.authMethod) == i.authMethod && r.value.authValue == i.authValue
              && Some(r.value.simPurchase) == i.simPurchase && Some(r.value.planName) == i.planName
              && Some(r.value.contractPeriod) == i.contractPeriod
  {
    var errors := ErrorMap(i);
    AcceptableIffNoErrors(i);
    if errors == map[] then
      Ok(WirelessForm(
        i.name.value, i.phone.value, i.birthDate.value,
        i.address.value, i.detailAddress, i.zipCode.value,
        i.authMethod.value, i.authValue, i.simPurchase.value,
        i.planName.value, i.contractPeriod.value))
    else
      Err(errors)
  }

  /** The messages a rejected form shows for the fields the pages check
      one by one. */
  lemma RejectionMessages(i: Input)
    ensures i.name.Some? && |i.name.value| < 2 ==>
              var r := Validate(i); r.Err? && Name in r.error && r.error[Name] == "이름을 입력해주세요"
    ensures i.phone.Some? && |i.phone.value| < 10 ==>
              var r := Validate(i); r.Err? && Phone in r.error && r.error[Phone] == "전화번호를 입력해주세요"
    ensures i.zipCode.None? ==>
              var r := Validate(i); r.Err? && ZipCode in r.error && r.error[ZipCode] == RequiredMessage
    ensures i.zipCode == Some("") ==>
              var r := Validate(i); r.Err? && ZipCode in r.error && r.error[ZipCode] == "우편번호를 입력해주세요"
  {
    if i.name.Some? && |i.name.value| < 2 {
      assert !FieldPasses(i, Name);
    }
    if i.phone.Some? && |i.phone.value| < 10 {
      assert !FieldPasses(i, Phone);
    }
    if i.zipCode.None? {
      assert !FieldPasses(i, ZipCode);
    }
    if i.zipCode == Some("") {
      assert !FieldPasses(i, ZipCode);
    }
  }

  /** The authentication value and the detail address never change the
      outcome: neither acceptance nor, on rejection, the error map. */
  lemma OptionalFieldsIrrelevant(i: Input, detail: Option<string>, authValue: Option<string>)
    ensures var j := i.(detailAddress := detail, authValue := authValue);
            Validate(j).Ok? == Validate(i).Ok?
            && (Validate(i).Err? ==> Validate(j).error == Validate(i).error)
  {
    var j := i.(detailAddress := detail, authValue := authValue);
    forall f | RuleOf(f) != Optional
      ensures ValueOf(i, f) == ValueOf(j, f)
    {
    }
    SameErrorsWhenOnlyOptionalDiffer(i, j);
    assert Validate(i) == (if ErrorMap(i) == map[] then Validate(i) else Err(ErrorMap(i)));
    assert Validate(j) == (if ErrorMap(j) == map[] then Validate(j) else Err(ErrorMap(j)));
  }

  lemma SameErrorsWhenOnlyOptionalDiffer(i: Input, j: Input)
    requires forall f :: RuleOf(f) != Optional ==> ValueOf(i, f) == ValueOf(j, f)
    ensures ErrorMap(i) == ErrorMap(j)
  {
    var mi, mj := ErrorMap(i), ErrorMap(j);
    forall f ensures f in mi <==> f in mj {
      SameVerdict(i, j, f);
    }
    forall f | f in mi ensures mi[f] == mj[f] {
      SameVerdict(i, j, f);
    }
    SameEntries(mi, mj);
  }

  lemma SameEntries(a: map<Field, string>, b: map<Field, string>)
    requires forall f :: f in a <==> f in b
    requires forall f :: f in a ==> a[f] == b[f]
    ensures a == b
  {
  }

  /** A field whose value is the same in both inputs, or whose rule is
      optional, gets the same verdict in both. */
  lemma SameVerdict(i: Input, j: Input, f: Field)
    requires RuleOf(f) != Optional ==> ValueOf(i, f) == ValueOf(j, f)
    ensures Check(RuleOf(f), ValueOf(i, f)) == Check(RuleOf(f), ValueOf(j, f))
    ensures FieldPasses(i, f) <==> FieldPasses(j, f)
  {
    RuleAgrees(i, f);
    RuleAgrees(j, f);
  }
}
