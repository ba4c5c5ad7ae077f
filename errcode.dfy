/** Error codes and the error response every handler aborts with
    (app/core/errcode). A code string has the shape `XX-SSS-NNN`: a
    component prefix, the HTTP status, and a serial number. */
module ErrCode {

  import opened Base

  // Auth / middleware
  const AU_UNAUTHORIZED_001 := "AU-401-001"
  const AU_UNAUTHORIZED_002 := "AU-401-002"
  const AU_UNAUTHORIZED_003 := "AU-401-003"
  const AU_UNAUTHORIZED_004 := "AU-401-004"
  const AU_UNAUTHORIZED_005 := "AU-401-005"
  // Table
  const TB_BAD_REQUEST_001 := "TB-400-001"
  const TB_BAD_REQUEST_002 := "TB-400-002"
  const TB_INTERNAL_001 := "TB-500-001"
  // Table session
  const TS_BAD_REQUEST_001 := "TS-400-001"
  const TS_BAD_REQUEST_002 := "TS-400-002"
  const TS_INTERNAL_001 := "TS-500-001"
  // Booking
  const BK_BAD_REQUEST_001 := "BK-400-001"
  const BK_BAD_REQUEST_002 := "BK-400-002"
  const BK_INTERNAL_001 := "BK-500-001"
  // Menu category
  const MC_BAD_REQUEST_001 := "MC-400-001"
  const MC_BAD_REQUEST_002 := "MC-400-002"
  const MC_INTERNAL_001 := "MC-500-001"
  // Menu item
  const MI_BAD_REQUEST_001 := "MI-400-001"
  const MI_BAD_REQUEST_002 := "MI-400-002"
  const MI_INTERNAL_001 := "MI-500-001"
  // Table order
  const TO_BAD_REQUEST_001 := "TO-400-001"
  const TO_BAD_REQUEST_002 := "TO-400-002"
  const TO_INTERNAL_001 := "TO-500-001"
  // Payment
  const PY_BAD_REQUEST_001 := "PY-400-001"
  const PY_BAD_REQUEST_002 := "PY-400-002"
  const PY_INTERNAL_001 := "PY-500-001"
  // Creditor
  const CR_BAD_REQUEST_001 := "CR-400-001"
  const CR_BAD_REQUEST_002 := "CR-400-002"
  const CR_INTERNAL_001 := "CR-500-001"
  // Promotion
  const PM_BAD_REQUEST_001 := "PM-400-001"
  const PM_BAD_REQUEST_002 := "PM-400-002"
  const PM_INTERNAL_001 := "PM-500-001"
  // Expense
  const EX_BAD_REQUEST_001 := "EX-400-001"
  const EX_BAD_REQUEST_002 := "EX-400-002"
  const EX_INTERNAL_001 := "EX-500-001"
  // Setting
  const SE_BAD_REQUEST_001 := "SE-400-001"
  const SE_BAD_REQUEST_002 := "SE-400-002"
  const SE_INTERNAL_001 := "SE-500-001"
  // Dashboard
  const DA_BAD_REQUEST_001 := "DA-400-001"
  const DA_BAD_REQUEST_002 := "DA-400-002"
  const DA_INTERNAL_001 := "DA-500-001"
  // Report
  const RP_BAD_REQUEST_001 := "RP-400-001"
  const RP_BAD_REQUEST_002 := "RP-400-002"
  const RP_INTERNAL_001 := "RP-500-001"
  // System
  const SY_NOT_FOUND_001 := "SY-404-001"
  const SY_FORBIDDEN_001 := "SY-403-001"
  const SY_FORBIDDEN_002 := "SY-403-002"
  const SY_INTERNAL_001 := "SY-500-001"

  // The HTTP statuses the table uses
  const StatusBadRequest := 400
  const StatusUnauthorized := 401
  const StatusForbidden := 403
  const StatusNotFound := 404
  const StatusInternalServerError := 500

  datatype CodeInfo = CodeInfo(HttpStatus: int, Description: string)

  const InvalidBody := "invalid request body"
  const WriteFailed := "create/update/delete failed"
  const InternalError := "internal server error"

  // Auth / middleware
  function AuthCodes(): (m: map<string, CodeInfo>)
    ensures StatusIsMiddleField(m) && InternalIsDescribed(m)
    ensures forall k | k in m :: m[k].HttpStatus == StatusUnauthorized
  {
    map[
      AU_UNAUTHORIZED_001 := CodeInfo(StatusUnauthorized, "missing or invalid authorization header"),
      AU_UNAUTHORIZED_002 := CodeInfo(StatusUnauthorized, "token invalid or expired"),
      AU_UNAUTHORIZED_003 := CodeInfo(StatusUnauthorized, "system mismatch"),
      AU_UNAUTHORIZED_004 := CodeInfo(StatusUnauthorized, "clientId mismatch"),
      AU_UNAUTHORIZED_005 := CodeInfo(StatusUnauthorized, "session invalid")
    ]
  }

  // Table (TB)
  function TableCodes(): (m: map<string, CodeInfo>)
    ensures StatusIsMiddleField(m) && InternalIsDescribed(m)
  {
    map[
      TB_BAD_REQUEST_001 := CodeInfo(StatusBadRequest, InvalidBody),
      TB_BAD_REQUEST_002 := CodeInfo(StatusBadRequest, WriteFailed),
      TB_INTERNAL_001 := CodeInfo(StatusInternalServerError, InternalError)
    ]
  }

  // Table session (TS)
  function SessionCodes(): (m: map<string, CodeInfo>)
    ensures StatusIsMiddleField(m) && InternalIsDescribed(m)
  {
    map[
      TS_BAD_REQUEST_001 := CodeInfo(StatusBadRequest, InvalidBody),
      TS_BAD_REQUEST_002 := CodeInfo(StatusBadRequest, "operation failed"),
      TS_INTERNAL_001 := CodeInfo(StatusInternalServerError, InternalError)
    ]
  }

  // Booking (BK)
  function BookingCodes(): (m: map<string, CodeInfo>)
    ensures StatusIsMiddleField(m) && InternalIsDescribed(m)
  {
    map[
      BK_BAD_REQUEST_001 := CodeInfo(StatusBadRequest, InvalidBody),
      BK_BAD_REQUEST_002 := CodeInfo(StatusBadRequest, WriteFailed),
      BK_INTERNAL_001 := CodeInfo(StatusInternalServerError, InternalError)
    ]
  }

  // Menu category (MC)
  function MenuCategoryCodes(): (m: map<string, CodeInfo>)
    ensures StatusIsMiddleField(m) && InternalIsDescribed(m)
  {
    map[
      MC_BAD_REQUEST_001 := CodeInfo(StatusBadRequest, InvalidBody),
      MC_BAD_REQUEST_002 := CodeInfo(StatusBadRequest, WriteFailed),
      MC_INTERNAL_001 := CodeInfo(StatusInternalServerError, InternalError)
    ]
  }

  // Menu item (MI)
  function MenuItemCodes(): (m: map<string, CodeInfo>)
    ensures StatusIsMiddleField(m) && InternalIsDescribed(m)
  {
    map[
      MI_BAD_REQUEST_001 := CodeInfo(StatusBadRequest, InvalidBody),
      MI_BAD_REQUEST_002 := CodeInfo(StatusBadRequest, WriteFailed),
      MI_INTERNAL_001 := CodeInfo(StatusInternalServerError, InternalError)
    ]
  }

  // Table order (TO)
  function OrderCodes(): (m: map<string, CodeInfo>)
    ensures StatusIsMiddleField(m) && InternalIsDescribed(m)
  {
    map[
      TO_BAD_REQUEST_001 := CodeInfo(StatusBadRequest, InvalidBody),
      TO_BAD_REQUEST_002 := CodeInfo(StatusBadRequest, WriteFailed),
      TO_INTERNAL_001 := CodeInfo(StatusInternalServerError, InternalError)
    ]
  }

  // Payment (PY)
  function PaymentCodes(): (m: map<string, CodeInfo>)
    ensures StatusIsMiddleField(m) && InternalIsDescribed(m)
  {
    map[
      PY_BAD_REQUEST_001 := CodeInfo(StatusBadRequest, InvalidBody),
      PY_BAD_REQUEST_002 := CodeInfo(StatusBadRequest, WriteFailed),
      PY_INTERNAL_001 := CodeInfo(StatusInternalServerError, InternalError)
    ]
  }

  // Creditor (CR)
  function CreditorCodes(): (m: map<string, CodeInfo>)
    ensures StatusIsMiddleField(m) && InternalIsDescribed(m)
  {
    map[
      CR_BAD_REQUEST_001 := CodeInfo(StatusBadRequest, InvalidBody),
      CR_BAD_REQUEST_002 := CodeInfo(StatusBadRequest, WriteFailed),
      CR_INTERNAL_001 := CodeInfo(StatusInternalServerError, InternalError)
    ]
  }

  // Promotion (PM)
  function PromotionCodes(): (m: map<string, CodeInfo>)
    ensures StatusIsMiddleField(m) && InternalIsDescribed(m)
  {
    map[
      PM_BAD_REQUEST_001 := CodeInfo(StatusBadRequest, InvalidBody),
      PM_BAD_REQUEST_002 := CodeInfo(StatusBadRequest, WriteFailed),
      PM_INTERNAL_001 := CodeInfo(StatusInternalServerError, InternalError)
    ]
  }

  // Expense (EX)
  function ExpenseCodes(): (m: map<string, CodeInfo>)
    ensures StatusIsMiddleField(m) && InternalIsDescribed(m)
  {
    map[
      EX_BAD_REQUEST_001 := CodeInfo(StatusBadRequest, InvalidBody),
      EX_BAD_REQUEST_002 := CodeInfo(StatusBadRequest, WriteFailed),
      EX_INTERNAL_001 := CodeInfo(StatusInternalServerError, InternalError)
    ]
  }

  // Setting (SE)
  function SettingCodes(): (m: map<string, CodeInfo>)
    ensures StatusIsMiddleField(m) && InternalIsDescribed(m)
  {
    map[
      SE_BAD_REQUEST_001 := CodeInfo(StatusBadRequest, InvalidBody),
      SE_BAD_REQUEST_002 := CodeInfo(StatusBadRequest, "upsert failed"),
      SE_INTERNAL_001 := CodeInfo(StatusInternalServerError, InternalError)
    ]
  }

  // Dashboard (DA)
  function DashboardCodes(): (m: map<string, CodeInfo>)
    ensures StatusIsMiddleField(m) && InternalIsDescribed(m)
  {
    map[
      DA_BAD_REQUEST_001 := CodeInfo(StatusBadRequest, "invalid request or missing params"),
      DA_BAD_REQUEST_002 := CodeInfo(StatusBadRequest, "query failed"),
      DA_INTERNAL_001 := CodeInfo(StatusInternalServerError, InternalError)
    ]
  }

  // Report (RP)
  function ReportCodes(): (m: map<string, CodeInfo>)
    ensures StatusIsMiddleField(m) && InternalIsDescribed(m)
  {
    map[
      RP_BAD_REQUEST_001 := CodeInfo(StatusBadRequest, "invalid request or missing params"),
      RP_BAD_REQUEST_002 := CodeInfo(StatusBadRequest, "report generation failed"),
      RP_INTERNAL_001 := CodeInfo(StatusInternalServerError, InternalError)
    ]
  }

  // System (SY)
  function SystemCodes(): (m: map<string, CodeInfo>)
    ensures StatusIsMiddleField(m) && InternalIsDescribed(m)
  {
    map[
      SY_NOT_FOUND_001 := CodeInfo(StatusNotFound, "route not found"),
      SY_FORBIDDEN_001 := CodeInfo(StatusForbidden, "invalid request, restricted endpoint"),
      SY_FORBIDDEN_002 := CodeInfo(StatusForbidden, "don't have permission"),
      SY_INTERNAL_001 := CodeInfo(StatusInternalServerError, InternalError)
    ]
  }

  /** `codeMap`: the status and default description of every known code,
      section by section. */
  const CodeMap: map<string, CodeInfo> :=
    AuthCodes() + TableCodes() + SessionCodes() + BookingCodes() + MenuCategoryCodes() + MenuItemCodes()
    + OrderCodes() + PaymentCodes() + CreditorCodes() + PromotionCodes() + ExpenseCodes() + SettingCodes()
    + DashboardCodes() + ReportCodes() + SystemCodes()


  /** `GetCodeInfo`: the entry for a code and whether there is one; a missing
      code yields Go's zero `CodeInfo`. */
  function GetCodeInfo(code: string): (r: (CodeInfo, bool))
    ensures r.1 <==> code in CodeMap
    ensures r.1 ==> r.0 == CodeMap[code]
    ensures !r.1 ==> r.0 == CodeInfo(0, "")
  {
    if code in CodeMap then (CodeMap[code], true) else (CodeInfo(0, ""), false)
  }

  /** The JSON body and status an aborted request answers with. */
  datatype AppError = AppError(status: int, errcode: string, error: string)

  /** A handler's answer: a value, or the error it aborted with. */
  datatype Result<T> = Ok(value: T) | Err(error: AppError)

  /** `Abort`: answer with exactly the given status, code and message. */
  function Abort(httpStatus: int, code: string, msg: string): (e: AppError)
    ensures e.status == httpStatus && e.errcode == code && e.error == msg
  {
    AppError(httpStatus, code, msg)
  }

  /** A handler's `Abort(ctx, http.StatusBadRequest, code, msg)` followed by
      `return`. */
  function BadRequest<T>(code: string, msg: string): Result<T> {
    Err(Abort(StatusBadRequest, code, msg))
  }

  /** `AbortByCode`: status and default message come from the code table;
      an unknown code answers 500 with the caller's message. */
  function AbortByCode(code: string, msg: string): (e: AppError)
    ensures e.errcode == code
    ensures code !in CodeMap ==> e.status == StatusInternalServerError && e.error == msg
    ensures code in CodeMap ==> e.status == CodeMap[code].HttpStatus
    ensures code in CodeMap && msg == "" ==> e.error == CodeMap[code].Description
    ensures msg != "" ==> e.error == msg
  {
    var (info, ok) := GetCodeInfo(code);
    if !ok then
      AppError(StatusInternalServerError, code, msg)
    else
      var message := if msg == "" then info.Description else msg;
      AppError(info.HttpStatus, code, message)
  }

  predicate IsDigit(c: char) { '0' <= c <= '9' }

  /** The status a well-shaped code string carries in its middle field. */
  function MiddleField(code: string): (r: Option<int>)
    ensures r.Some? ==> 0 <= r.value <= 999
    ensures r.Some? ==> |code| == 10 && code[2] == '-' && code[6] == '-'
  {
    if |code| == 10 && code[2] == '-' && code[6] == '-'
       && IsDigit(code[3]) && IsDigit(code[4]) && IsDigit(code[5])
    then Some(100 * (code[3] as int - '0' as int) + 10 * (code[4] as int - '0' as int)
              + (code[5] as int - '0' as int))
    else None
  }

  /** Each entry's status is the three-digit middle field of its code. */
  ghost predicate StatusIsMiddleField(m: map<string, CodeInfo>) {
    forall k | k in m :: MiddleField(k) == Some(m[k].HttpStatus)
  }

  /** An entry is a 500 exactly when it carries the internal-error description. */
  ghost predicate InternalIsDescribed(m: map<string, CodeInfo>) {
    forall k | k in m :: m[k].HttpStatus == StatusInternalServerError <==> m[k].Description == InternalError
  }

  lemma UnionKeepsEntryProperties(m1: map<string, CodeInfo>, m2: map<string, CodeInfo>)
    requires StatusIsMiddleField(m1) && InternalIsDescribed(m1)
    requires StatusIsMiddleField(m2) && InternalIsDescribed(m2)
    ensures StatusIsMiddleField(m1 + m2) && InternalIsDescribed(m1 + m2)
  {
  }

  /** Every entry of the whole table agrees with its own code string (`TS-400-002`
      maps to 400), and the 500s are exactly the entries described as internal
      errors. */
  lemma CodeMapEntriesAgreeWithCodes()
    ensures StatusIsMiddleField(CodeMap) && InternalIsDescribed(CodeMap)
  {
    var m := AuthCodes();
    UnionKeepsEntryProperties(m, TableCodes());
    m := m + TableCodes();
    UnionKeepsEntryProperties(m, SessionCodes());
    m := m + SessionCodes();
    UnionKeepsEntryProperties(m, BookingCodes());
    m := m + BookingCodes();
    UnionKeepsEntryProperties(m, MenuCategoryCodes());
    m := m + MenuCategoryCodes();
    UnionKeepsEntryProperties(m, MenuItemCodes());
    m := m + MenuItemCodes();
    UnionKeepsEntryProperties(m, OrderCodes());
    m := m + OrderCodes();
    UnionKeepsEntryProperties(m, PaymentCodes());
    m := m + PaymentCodes();
    UnionKeepsEntryProperties(m, CreditorCodes());
    m := m + CreditorCodes();
    UnionKeepsEntryProperties(m, PromotionCodes());
    m := m + PromotionCodes();
    UnionKeepsEntryProperties(m, ExpenseCodes());
    m := m + ExpenseCodes();
    UnionKeepsEntryProperties(m, SettingCodes());
    m := m + SettingCodes();
    UnionKeepsEntryProperties(m, DashboardCodes());
    m := m + DashboardCodes();
    UnionKeepsEntryProperties(m, ReportCodes());
    m := m + ReportCodes();
    UnionKeepsEntryProperties(m, SystemCodes());
    m := m + SystemCodes();
    assert m == CodeMap;
  }

  /** Every `AU_UNAUTHORIZED_*` code is in the table as a 401. */
  lemma UnauthorizedCodesAre401()
    ensures forall c | c in AuthCodes() :: c in CodeMap && CodeMap[c].HttpStatus == StatusUnauthorized
  {
    CodeMapEntriesAgreeWithCodes();
    forall c | c in AuthCodes()
      ensures c in CodeMap && CodeMap[c].HttpStatus == StatusUnauthorized
    {
      assert MiddleField(c) == Some(StatusUnauthorized);
    }
  }

  /** Route-not-found is a 404. */
  lemma NotFoundCodeIs404()
    ensures SY_NOT_FOUND_001 in CodeMap && CodeMap[SY_NOT_FOUND_001].HttpStatus == StatusNotFound
  {
    assert SystemCodes()[SY_NOT_FOUND_001].HttpStatus == StatusNotFound;
  }

  /** Both forbidden codes are 403s. */
  lemma ForbiddenCodesAre403()
    ensures SY_FORBIDDEN_001 in CodeMap && CodeMap[SY_FORBIDDEN_001].HttpStatus == StatusForbidden
    ensures SY_FORBIDDEN_002 in CodeMap && CodeMap[SY_FORBIDDEN_002].HttpStatus == StatusForbidden
  {
    assert SystemCodes()[SY_FORBIDDEN_001].HttpStatus == StatusForbidden;
    assert SystemCodes()[SY_FORBIDDEN_002].HttpStatus == StatusForbidden;
  }

  /** The system's internal code is a 500 described as an internal error. */
  lemma InternalSystemCodeIs500()
    ensures SY_INTERNAL_001 in CodeMap && CodeMap[SY_INTERNAL_001] == CodeInfo(StatusInternalServerError, InternalError)
  {
    assert SystemCodes()[SY_INTERNAL_001] == CodeInfo(StatusInternalServerError, InternalError);
  }

  /** In a table whose entries agree with their codes, a code whose middle
      field reads `500` is a 500 described as an internal server error. */
  lemma MiddleField500IsInternal(m: map<string, CodeInfo>, k: string)
    requires StatusIsMiddleField(m) && InternalIsDescribed(m)
    requires k in m && |k| == 10 && k[3..6] == "500"
    ensures m[k] == CodeInfo(StatusInternalServerError, InternalError)
  {
    assert k[3] == k[3..6][0] && k[4] == k[3..6][1] && k[5] == k[3..6][2];
    assert MiddleField(k) == Some(m[k].HttpStatus);
  }

  /** Every code whose middle field reads `500` (each section's `*_INTERNAL_001`)
      is a 500 described as an internal server error. */
  lemma InternalCodesAre500(k: string)
    requires k in CodeMap && |k| == 10 && k[3..6] == "500"
    ensures CodeMap[k] == CodeInfo(StatusInternalServerError, InternalError)
  {
    CodeMapEntriesAgreeWithCodes();
    MiddleField500IsInternal(CodeMap, k);
  }

  /** A handler that aborts with a known code, the status the table lists for
      it and a non-empty message answers exactly what `AbortByCode` would. */
  lemma AbortAgreesWithAbortByCode(code: string, msg: string)
    requires code in CodeMap && msg != ""
    ensures Abort(CodeMap[code].HttpStatus, code, msg) == AbortByCode(code, msg)
  {
  }
}
