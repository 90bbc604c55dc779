/** The landlord's contract page: the payment-status badge, the customer code and
    avatar initials on each contract card, the create form's validation and payload,
    and the modal that remembers which contract is open. Rendering, alerts and
    requests themselves are outside the model: a handler's effect is the request it
    would send, or the alert that stops it. */
module ContractPage {
  import opened Common

  // ---------------------------------------------------------------------------
  // getPaymentStatusText

  datatype Tone = OkTone | WarningTone | DangerTone

  datatype Badge = Badge(text: string, tone: Tone)

  /** The badge of a contract's payment status: a missing or empty status and any
      status the switch does not know read as on time. */
  function PaymentStatusText(status: Option<string>): (r: Badge)
    ensures !Truthy(status) ==> r == Badge("Đúng hạn", OkTone)
    ensures r.tone == DangerTone <==> status == Some("Overdue")
    ensures r.tone == WarningTone <==> status == Some("Unpaid") || status == Some("PartiallyPaid")
    ensures r.text == "Đúng hạn" <==>
      !Truthy(status) || status.value !in ["Paid", "Unpaid", "Overdue", "PartiallyPaid"]
  {
    if !Truthy(status) then Badge("Đúng hạn", OkTone)
    else match status.value
      case "Paid" => Badge("Đã thanh toán", OkTone)
      case "Unpaid" => Badge("Chưa thanh toán", WarningTone)
      case "Overdue" => Badge("Quá hạn", DangerTone)
      case "PartiallyPaid" => Badge("Thanh toán một phần", WarningTone)
      case _ => Badge("Đúng hạn", OkTone)
  }

  // ---------------------------------------------------------------------------
  // The customer code: `T-` + the room number's digits padded to four + its letters

  function Repeat(c: char, n: nat): (r: string)
    ensures |r| == n && forall i :: 0 <= i < n ==> r[i] == c
  {
    if n == 0 then "" else [c] + Repeat(c, n - 1)
  }

  /** `s.padStart(n, c)`: `c` repeated in front up to length `n`. */
  function PadStart(s: string, n: nat, c: char): (r: string)
    ensures |r| == Max(|s|, n)
    ensures r[|r| - |s|..] == s
    ensures forall i :: 0 <= i < |r| - |s| ==> r[i] == c
  {
    if |s| >= n then s else Repeat(c, n - |s|) + s
  }

  /** The code shown as "Mã KH" for a contract whose room number is `roomNumber` (a
      NULL room number reads as empty). */
  function CustomerCode(roomNumber: Option<string>): (r: string)
    ensures |r| >= 6 && r[..2] == "T-"
  {
    var roomNum := if roomNumber.Some? then roomNumber.value else "";
    "T-" + PadStart(DigitsOnly(roomNum), 4, '0') + NonDigits(roomNum)
  }

  /** After `T-` the code holds the room number's digits, in their order and padded
      with zeros to at least four, and then its other characters, also in order:
      taking the digits and the rest of the code apart gives both back. */
  lemma CustomerCodeParts(roomNum: string)
    ensures var body := CustomerCode(Some(roomNum))[2..];
      && DigitsOnly(body) == PadStart(DigitsOnly(roomNum), 4, '0')
      && NonDigits(body) == NonDigits(roomNum)
      && |body| == Max(|DigitsOnly(roomNum)|, 4) + |NonDigits(roomNum)|
  {
    CustomerCodeBody(roomNum);
    PaddedDigits(DigitsOnly(roomNum), 4);
    DigitsThenOthers(PadStart(DigitsOnly(roomNum), 4, '0'), NonDigits(roomNum));
  }

  /** What follows `T-`: the padded digits, then the other characters. */
  lemma CustomerCodeBody(roomNum: string)
    ensures CustomerCode(Some(roomNum))[2..] == PadStart(DigitsOnly(roomNum), 4, '0') + NonDigits(roomNum)
  {
    var body := PadStart(DigitsOnly(roomNum), 4, '0') + NonDigits(roomNum);
    assert CustomerCode(Some(roomNum)) == "T-" + body;
  }

  /** Digits followed by non-digits come apart into the two. */
  lemma DigitsThenOthers(digits: string, others: string)
    requires AllDigits(digits)
    requires forall i :: 0 <= i < |others| ==> !IsDigit(others[i])
    ensures DigitsOnly(digits + others) == digits
    ensures NonDigits(digits + others) == others
  {
    DigitsOnlyAppend(digits, others);
    NonDigitsAppend(digits, others);
    DigitsOnlyFixpoint(digits);
    DigitsOnlyEmptyIff(others);
    NonDigitsOfDigits(digits);
    NonDigitsFixpoint(others);
  }

  /** Padding digits with zeros leaves only digits. */
  lemma PaddedDigits(digits: string, n: nat)
    requires AllDigits(digits)
    ensures AllDigits(PadStart(digits, n, '0'))
  {
    var padded := PadStart(digits, n, '0');
    var off := |padded| - |digits|;
    forall i | 0 <= i < |padded|
      ensures IsDigit(padded[i])
    {
      if i >= off {
        assert padded[i] == padded[off..][i - off];
      }
    }
  }

  /** A string without digits keeps all its characters when the digits are removed. */
  lemma {:induction false} NonDigitsFixpoint(s: string)
    requires forall i :: 0 <= i < |s| ==> !IsDigit(s[i])
    ensures NonDigits(s) == s
  {
    if s != "" {
      NonDigitsFixpoint(s[1..]);
      assert [s[0]] + s[1..] == s;
    }
  }

  // ---------------------------------------------------------------------------
  // The avatar initials

  /** `words.map(n => n[0]).join('')`: the first character of every word; an empty
      word's `n[0]` is undefined and joins as nothing. */
  function Heads(words: seq<string>): (r: string)
    ensures |r| <= |words|
  {
    if words == [] then "" else (if words[0] == "" then "" else [words[0][0]]) + Heads(words[1..])
  }

  /** The initials on a contract card: the heads of the name's space-separated words,
      the first two, upper-cased; `??` when there is no name. */
  function Initials(fullName: Option<string>): (r: string)
    ensures !Truthy(fullName) ==> r == "??"
    ensures Truthy(fullName) ==> |r| <= 2 && |r| <= |Split(fullName.value)|
  {
    if Truthy(fullName) then ToUpper(Take(Heads(Split(fullName.value)), 2)) else "??"
  }

  /** A name of two or more words separated by single spaces gets the upper-cased
      first letters of its first two words. */
  lemma InitialsOfWords(words: seq<string>)
    requires |words| >= 2
    requires forall i :: 0 <= i < |words| ==> words[i] != "" && ' ' !in words[i]
    ensures Initials(Some(JoinSpaces(words))) == [ToUpperChar(words[0][0]), ToUpperChar(words[1][0])]
  {
    JoinSplitRoundTrip(words);
    var name := JoinSpaces(words);
    assert name == words[0] + " " + JoinSpaces(words[1..]);
    assert Truthy(Some(name));
    HeadsOfFirstTwo(words);
  }

  /** A Vietnamese name keeps its accented capital: "đặng văn an" shows as "ĐV". */
  lemma VietnameseInitials()
    ensures Initials(Some("đặng văn an")) == "ĐV"
  {
    var words := ["đặng", "văn", "an"];
    assert JoinSpaces(words) == "đặng văn an" by {
      assert JoinSpaces(words[2..]) == "an";
      assert JoinSpaces(words[1..]) == "văn an";
    }
    InitialsOfWords(words);
  }

  /** The first two heads of words that are not empty are their first characters. */
  lemma HeadsOfFirstTwo(words: seq<string>)
    requires |words| >= 2 && words[0] != "" && words[1] != ""
    ensures Take(Heads(words), 2) == [words[0][0], words[1][0]]
  {
    assert words[1..][1..] == words[2..];
    assert Heads(words) == [words[0][0]] + ([words[1][0]] + Heads(words[2..]));
  }

  // ---------------------------------------------------------------------------
  // submitCreateContract

  /** The create form's text fields, as the inputs hold them. */
  datatype CreateForm = CreateForm(
    roomId: string, fullName: string, phone: string, idCardNumber: string, startDate: string,
    endDate: string, deposit: string, rent: string, notes: string, password: string)

  /** The multipart fields sent (the uploaded files left out). */
  datatype CreateRequest = CreateRequest(
    roomId: string, fullName: string, phone: string, idCardNumber: string, startDate: string,
    endDate: string, depositAmount: string, rentAmount: string, notes: string, password: string)

  /** What a submit handler does: alert and send nothing, or send a request. */
  datatype Submission<+T> = Rejected(alert: string) | Sent(request: T)

  /** `submitCreateContract`: the checks stop at the first failure (room, then name
      and phone, then id card); the amounts are sent with every non-digit removed. */
  function SubmitCreateContract(form: CreateForm): (r: Submission<CreateRequest>)
    ensures form.roomId == "" ==> r == Rejected("Vui lòng chọn phòng!")
    ensures form.roomId != "" && (form.fullName == "" || form.phone == "") ==> r == Rejected("Vui lòng nhập tên và SĐT!")
    ensures r.Sent? <==> form.roomId != "" && form.fullName != "" && form.phone != "" && form.idCardNumber != ""
    ensures r.Rejected? ==> r.alert in ["Vui lòng chọn phòng!", "Vui lòng nhập tên và SĐT!", "Vui lòng nhập số CCCD/CMND!"]
    ensures r.Sent? ==>
      && AllDigits(r.request.depositAmount) && AllDigits(r.request.rentAmount)
      && r.request.depositAmount == DigitsOnly(form.deposit) && r.request.rentAmount == DigitsOnly(form.rent)
      && r.request.(depositAmount := form.deposit, rentAmount := form.rent)
         == CreateRequest(form.roomId, form.fullName, form.phone, form.idCardNumber, form.startDate,
                          form.endDate, form.deposit, form.rent, form.notes, form.password)
  {
    if form.roomId == "" then Rejected("Vui lòng chọn phòng!")
    else if form.fullName == "" || form.phone == "" then Rejected("Vui lòng nhập tên và SĐT!")
    else if form.idCardNumber == "" then Rejected("Vui lòng nhập số CCCD/CMND!")
    else Sent(CreateRequest(form.roomId, form.fullName, form.phone, form.idCardNumber, form.startDate,
                            form.endDate, DigitsOnly(form.deposit), DigitsOnly(form.rent), form.notes, form.password))
  }

  /** An amount already made of digits is sent as typed; a formatted one loses only
      its separators and symbols, never a digit. */
  lemma AmountDigitsKept(amount: string)
    ensures AllDigits(amount) ==> DigitsOnly(amount) == amount
    ensures multiset(DigitsOnly(amount)) + multiset(NonDigits(amount)) == multiset(amount)
  {
    DigitsOnlyFixpoint(amount);
    DigitSplitIsPermutation(amount);
  }

  // ---------------------------------------------------------------------------
  // The modal and `currentContractId`

  /** The edit form's fields sent by `saveContractChanges` (amounts stripped). */
  datatype EditRequest = EditRequest(
    fullName: string, phone: string, idCardNumber: string, password: string, startDate: string,
    endDate: string, depositAmount: string, rentAmount: string, notes: string)

  /** The page's modal: whether it is shown, and the contract it was opened for. */
  class ContractModal {
    var shown: bool
    var currentContractId: Option<int>

    /** A closed modal remembers no contract. */
    predicate Valid()
      reads this
    {
      !shown ==> currentContractId == None
    }

    /** The page loads with the modal closed and no contract selected. */
    constructor ()
      ensures Valid() && !shown && currentContractId == None
    {
      shown := false;
      currentContractId := None;
    }

    /** `toggleModal`: opening keeps the selection, closing clears it. */
    method Toggle()
      modifies this
      ensures Valid()
      ensures shown == !old(shown)
      ensures old(shown) ==> currentContractId == None
      ensures !old(shown) ==> currentContractId == old(currentContractId)
    {
      if !shown {
        shown := true;
      } else {
        shown := false;
        currentContractId := None;
      }
    }

    /** `viewContractDetails(id)`: selects the contract, then toggles; from a closed
      modal that opens it on the contract, from an open one it closes and clears. */
    method ViewDetails(id: int)
      requires Valid()
      modifies this
      ensures Valid()
      ensures !old(shown) ==> shown && currentContractId == Some(id)
      ensures old(shown) ==> !shown && currentContractId == None
    {
      currentContractId := Some(id);
      Toggle();
    }

    /** `saveContractChanges`: nothing is sent without a selected contract (the id 0
        counts as none); otherwise the edits go to that contract with the amounts
        stripped of non-digits. The modal is left as it is. */
    method Save(fullName: string, phone: string, idCardNumber: string, password: string, startDate: string,
                endDate: string, deposit: string, rent: string, notes: string)
      returns (request: Option<(int, EditRequest)>)
      ensures request.None? <==> currentContractId.None? || currentContractId.value == 0
      ensures request.Some? ==>
        && request.value.0 == currentContractId.value
        && AllDigits(request.value.1.depositAmount) && AllDigits(request.value.1.rentAmount)
        && request.value.1 == EditRequest(fullName, phone, idCardNumber, password, startDate, endDate,
                                          DigitsOnly(deposit), DigitsOnly(rent), notes)
    {
      if currentContractId.None? || currentContractId.value == 0 {
        return None;
      }
      request := Some((currentContractId.value,
                       EditRequest(fullName, phone, idCardNumber, password, startDate, endDate,
                                   DigitsOnly(deposit), DigitsOnly(rent), notes)));
    }

    /** `terminateContract`: nothing happens without a selected contract or when the
        confirmation is dismissed; otherwise the termination of that contract is
        sent and the modal closes unless `fetch` itself is rejected (a network
        failure). The reply's status is not read, so an HTTP error reply closes the
        modal too. */
    method Terminate(confirmed: bool, fetchRejected: bool) returns (terminated: Option<int>)
      requires Valid()
      modifies this
      ensures Valid()
      ensures terminated.Some? <==> old(currentContractId).Some? && old(currentContractId).value != 0 && confirmed
      ensures terminated.Some? ==> terminated.value == old(currentContractId).value
      ensures terminated.Some? && !fetchRejected ==> !shown && currentContractId == None
      ensures terminated.None? || fetchRejected ==> shown == old(shown) && currentContractId == old(currentContractId)
    {
      if currentContractId.None? || currentContractId.value == 0 {
        return None;
      }
      if !confirmed {
        return None;
      }
      terminated := Some(currentContractId.value);
      if !fetchRejected {
        Toggle();
      }
    }
  }

  /** Whatever sequence of opening, viewing and closing leads to a closed modal, a
      save from it sends nothing. */
  method ClosedModalSavesNothing(m: ContractModal, deposit: string, rent: string) returns (request: Option<(int, EditRequest)>)
    requires m.Valid() && !m.shown
    ensures request.None?
  {
    request := m.Save("", "", "", "", "", "", deposit, rent, "");
  }
}
