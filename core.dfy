/** The persistent entities of internal/core: customers, default applications
    and users, and the field names that a partial update may select. */
module Core {
  import opened Wrappers

  /** A UUID. Identifiers are modelled as numbers; 0 plays `uuid.Nil`. */
  type Uuid = nat

  const Nil: Uuid := 0

  /** A point in time, supplied by the caller wherever the Go code calls `time.Now()`. */
  type Time = int

  /** The states of a default application. */
  datatype Status = Pending | Approved | Rejected | RebirthPending | Reborn

  /** The text the Go service stores in the `status` column. */
  function StatusName(s: Status): string
  {
    match s
    case Pending => "Pending"
    case Approved => "Approved"
    case Rejected => "Rejected"
    case RebirthPending => "RebirthPending"
    case Reborn => "Reborn"
  }

  datatype Customer = Customer(
    id: Uuid,
    name: string,
    industry: string,
    region: string,
    isDefault: bool,
    latestExtGrade: string)

  datatype Application = Application(
    id: Uuid,
    customerId: Uuid,
    status: Status,
    severity: string,
    defaultReason: string,
    remarks: string,
    applicantId: Uuid,
    applicationTime: Time,
    approverId: Option<Uuid>,
    approvalTime: Option<Time>,
    rejectionReason: string,
    rebirthReason: string,
    rebirthApproverId: Option<Uuid>,
    rebirthApprovalTime: Option<Time>)

  datatype User = User(id: Uuid, username: string, password: string, role: string)

  /** The columns of an application that `Update(app, fields...)` may select.
      The primary key is not among them: an update never moves a record. */
  datatype ApplicationField =
    | CustomerIdField | StatusField | SeverityField | DefaultReasonField | RemarksField
    | ApplicantIdField | ApplicationTimeField | ApproverIdField | ApprovalTimeField
    | RejectionReasonField | RebirthReasonField | RebirthApproverIdField | RebirthApprovalTimeField

  /** The columns of a customer that `Update(customer, fields...)` may select. */
  datatype CustomerField = NameField | IndustryField | RegionField | IsDefaultField | LatestExtGradeField

  /** The value held in one column, whatever its type. */
  datatype FieldValue =
    | IdValue(id: Uuid)
    | StatusValue(status: Status)
    | TextValue(text: string)
    | TimeValue(time: Time)
    | OptionalIdValue(optionalId: Option<Uuid>)
    | OptionalTimeValue(optionalTime: Option<Time>)
    | FlagValue(flag: bool)

  function ApplicationFieldValue(a: Application, f: ApplicationField): FieldValue
  {
    match f
    case CustomerIdField => IdValue(a.customerId)
    case StatusField => StatusValue(a.status)
    case SeverityField => TextValue(a.severity)
    case DefaultReasonField => TextValue(a.defaultReason)
    case RemarksField => TextValue(a.remarks)
    case ApplicantIdField => IdValue(a.applicantId)
    case ApplicationTimeField => TimeValue(a.applicationTime)
    case ApproverIdField => OptionalIdValue(a.approverId)
    case ApprovalTimeField => OptionalTimeValue(a.approvalTime)
    case RejectionReasonField => TextValue(a.rejectionReason)
    case RebirthReasonField => TextValue(a.rebirthReason)
    case RebirthApproverIdField => OptionalIdValue(a.rebirthApproverId)
    case RebirthApprovalTimeField => OptionalTimeValue(a.rebirthApprovalTime)
  }

  function CustomerFieldValue(c: Customer, f: CustomerField): FieldValue
  {
    match f
    case NameField => TextValue(c.name)
    case IndustryField => TextValue(c.industry)
    case RegionField => TextValue(c.region)
    case IsDefaultField => FlagValue(c.isDefault)
    case LatestExtGradeField => TextValue(c.latestExtGrade)
  }

  /** Two applications that agree on the id and on every column are the same record. */
  lemma ApplicationExtensionality(a: Application, b: Application)
    requires a.id == b.id
    requires forall f :: ApplicationFieldValue(a, f) == ApplicationFieldValue(b, f)
    ensures a == b
  {
    assert ApplicationFieldValue(a, CustomerIdField) == ApplicationFieldValue(b, CustomerIdField);
    assert ApplicationFieldValue(a, StatusField) == ApplicationFieldValue(b, StatusField);
    assert ApplicationFieldValue(a, SeverityField) == ApplicationFieldValue(b, SeverityField);
    assert ApplicationFieldValue(a, DefaultReasonField) == ApplicationFieldValue(b, DefaultReasonField);
    assert ApplicationFieldValue(a, RemarksField) == ApplicationFieldValue(b, RemarksField);
    assert ApplicationFieldValue(a, ApplicantIdField) == ApplicationFieldValue(b, ApplicantIdField);
    assert ApplicationFieldValue(a, ApplicationTimeField) == ApplicationFieldValue(b, ApplicationTimeField);
    assert ApplicationFieldValue(a, ApproverIdField) == ApplicationFieldValue(b, ApproverIdField);
    assert ApplicationFieldValue(a, ApprovalTimeField) == ApplicationFieldValue(b, ApprovalTimeField);
    assert ApplicationFieldValue(a, RejectionReasonField) == ApplicationFieldValue(b, RejectionReasonField);
    assert ApplicationFieldValue(a, RebirthReasonField) == ApplicationFieldValue(b, RebirthReasonField);
    assert ApplicationFieldValue(a, RebirthApproverIdField) == ApplicationFieldValue(b, RebirthApproverIdField);
    assert ApplicationFieldValue(a, RebirthApprovalTimeField) == ApplicationFieldValue(b, RebirthApprovalTimeField);
  }

  /** `after` is the record `before` with at most the listed columns rewritten. */
  ghost predicate ChangesOnly(before: Application, after: Application, fields: set<ApplicationField>)
  {
    after.id == before.id && forall f :: f !in fields ==> ApplicationFieldValue(after, f) == ApplicationFieldValue(before, f)
  }

  /** `after` is the customer `before` with at most the listed columns rewritten. */
  ghost predicate CustomerChangesOnly(before: Customer, after: Customer, fields: set<CustomerField>)
  {
    after.id == before.id && forall f :: f !in fields ==> CustomerFieldValue(after, f) == CustomerFieldValue(before, f)
  }

  /** The value a column holds after a partial update: the new one when the column is selected. */
  function SelectedValue(written: FieldValue, kept: FieldValue, selected: bool): FieldValue
  {
    if selected then written else kept
  }

  /** The stored record after `Updates` has written the selected columns of
      `source` over it: selected columns come from `source`, all others and
      the id stay as stored. */
  function WithApplicationFields(stored: Application, source: Application, fields: set<ApplicationField>): Application
  {
    Application(
      stored.id,
      if CustomerIdField in fields then source.customerId else stored.customerId,
      if StatusField in fields then source.status else stored.status,
      if SeverityField in fields then source.severity else stored.severity,
      if DefaultReasonField in fields then source.defaultReason else stored.defaultReason,
      if RemarksField in fields then source.remarks else stored.remarks,
      if ApplicantIdField in fields then source.applicantId else stored.applicantId,
      if ApplicationTimeField in fields then source.applicationTime else stored.applicationTime,
      if ApproverIdField in fields then source.approverId else stored.approverId,
      if ApprovalTimeField in fields then source.approvalTime else stored.approvalTime,
      if RejectionReasonField in fields then source.rejectionReason else stored.rejectionReason,
      if RebirthReasonField in fields then source.rebirthReason else stored.rebirthReason,
      if RebirthApproverIdField in fields then source.rebirthApproverId else stored.rebirthApproverId,
      if RebirthApprovalTimeField in fields then source.rebirthApprovalTime else stored.rebirthApprovalTime)
  }

  /** The stored customer after `Updates` has written the selected columns of `source` over it. */
  function WithCustomerFields(stored: Customer, source: Customer, fields: set<CustomerField>): (r: Customer)
    ensures r.id == stored.id
    ensures forall f :: CustomerFieldValue(r, f) == SelectedValue(CustomerFieldValue(source, f), CustomerFieldValue(stored, f), f in fields)
  {
    Customer(
      stored.id,
      if NameField in fields then source.name else stored.name,
      if IndustryField in fields then source.industry else stored.industry,
      if RegionField in fields then source.region else stored.region,
      if IsDefaultField in fields then source.isDefault else stored.isDefault,
      if LatestExtGradeField in fields then source.latestExtGrade else stored.latestExtGrade)
  }

  /** `Updates` with a field list writes exactly the selected columns: each
      selected column takes the value of `source`, every other column and the
      id keep the stored value. */
  lemma WithApplicationFieldsWritesSelected(stored: Application, source: Application, fields: set<ApplicationField>)
    ensures WithApplicationFields(stored, source, fields).id == stored.id
    ensures forall f :: ApplicationFieldValue(WithApplicationFields(stored, source, fields), f) == SelectedValue(ApplicationFieldValue(source, f), ApplicationFieldValue(stored, f), f in fields)
  {
    var r := WithApplicationFields(stored, source, fields);
    forall f
      ensures ApplicationFieldValue(r, f) == SelectedValue(ApplicationFieldValue(source, f), ApplicationFieldValue(stored, f), f in fields)
    {
      match f
      case CustomerIdField =>
      case StatusField =>
      case SeverityField =>
      case DefaultReasonField =>
      case RemarksField =>
      case ApplicantIdField =>
      case ApplicationTimeField =>
      case ApproverIdField =>
      case ApprovalTimeField =>
      case RejectionReasonField =>
      case RebirthReasonField =>
      case RebirthApproverIdField =>
      case RebirthApprovalTimeField =>
    }
  }
}
