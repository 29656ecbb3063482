/**
 * The new-bill controller (`NewBill` in src/containers/NewBill.js).
 *
 * Its state is the four fields it initialises in its constructor (`file`,
 * `fileUrl`, `fileName`, `billId`), the two bits of the page it writes (the
 * warning's `hidden` class and the file input's value), and a trace of what it
 * asks of the outside world: navigations, store calls and logged errors.
 *
 * The store's promises are explicit: issuing `create` or `update` records a
 * pending request, and the promise's settlement is a separate step
 * (CreateResolved, CreateRejected, UpdateResolved, UpdateRejected) that the
 * environment may take at any later time, with the continuation the source
 * registered.
 *
 * The transition functions below define each step on a value of the state;
 * class NewBill at the end keeps the same state in fields and its methods are
 * proved to perform exactly these steps.
 */
module NewBillContainer {
  import opened Wrappers
  import opened JsParseInt
  import opened FilePath
  import opened BillRecord

  /** A selected file: its name and its bytes. */
  datatype File = File(name: string, content: seq<bv8>)

  /** The session's `user` record: it may lack an e-mail. */
  datatype User = User(email: Option<string>)

  /** `ROUTES_PATH["Bills"]`, the bill list. */
  datatype Route = BillsRoute

  /** The multipart body of `create`: the file and the e-mail, with `noContentType`. */
  datatype CreateRequest = CreateRequest(file: Option<File>, email: Option<string>, noContentType: bool)

  /** What the controller does to the outside world, in order. */
  datatype Effect =
    | Navigate(route: Route)
    | StoreCreate(request: nat, payload: CreateRequest)
    | StoreUpdate(request: nat, data: Bill, selector: Option<string>)
    | ErrorLogged(error: string)

  /** The continuation registered on an issued store call. */
  datatype Awaiting = AwaitingCreate(bill: Bill) | AwaitingUpdate

  datatype Controller = Controller(
    hasStore: bool,
    file: Option<File>,
    fileUrl: Option<string>,
    fileName: Option<string>,
    billId: Option<string>,
    warningHidden: bool,
    inputValue: string,
    pending: map<nat, Awaiting>,
    nextRequest: nat,
    trace: seq<Effect>)

  /**
   * What every reachable state satisfies: `file` and `fileName` are set
   * together, only by a file whose name passed the image check, the name has
   * no backslash, and request identifiers still awaited were all issued,
   * through a store the controller holds.
   */
  ghost predicate ValidState(c: Controller) {
    && (c.file.Some? <==> c.fileName.Some?)
    && (c.file.Some? ==> MatchesImagePattern(c.file.value.name))
    && (c.fileName.Some? ==> '\\' !in c.fileName.value)
    && (forall id :: id in c.pending ==> id < c.nextRequest)
    && (c.pending != map[] ==> c.hasStore)
  }

  /** The constructor: every field null, nothing issued yet. */
  function Init(hasStore: bool, warningHidden: bool, inputValue: string): (r: Controller)
    ensures ValidState(r)
    ensures r.file == None && r.fileName == None && r.fileUrl == None && r.billId == None
    ensures r.pending == map[] && r.trace == []
  {
    Controller(hasStore, None, None, None, None, warningHidden, inputValue, map[], 0, [])
  }

  // ---------------------------------------------------------------------
  // handleChangeFile

  /**
   * The change event on the file input: `selected` is `files[0]` (None when
   * the list is empty) and `value` the input's value as the browser set it.
   * With no file, reading `file.name` throws and nothing else happens.
   */
  predicate ChangeFileThrows(selected: Option<File>) {
    selected.None?
  }

  function ChangeFile(c: Controller, selected: Option<File>, value: string): (r: Controller)
    ensures ValidState(c) ==> ValidState(r)
  {
    if selected.None? then c.(inputValue := value)
    else if MatchesImagePattern(selected.value.name) then
      c.(inputValue := value, warningHidden := true, file := selected,
         fileName := Some(LastSegment(value)))
    else
      c.(warningHidden := false, inputValue := "")
  }

  /**
   * An accepted file: the warning is hidden, `file` is the selected file and
   * `fileName` the part of the value after its last backslash (the whole value
   * when it has none), which holds no backslash; nothing else changes.
   */
  lemma ChangeFileAccepted(c: Controller, f: File, value: string)
    requires MatchesImagePattern(f.name)
    ensures var r := ChangeFile(c, Some(f), value);
            && r.warningHidden && r.file == Some(f) && r.fileName.Some?
            && (var n := r.fileName.value;
                '\\' !in n && |n| <= |value| && n == value[|value| - |n|..]
                && (|n| == |value| || value[|value| - |n| - 1] == '\\'))
            && r.inputValue == value
            && r == c.(warningHidden := true, file := Some(f), fileName := r.fileName, inputValue := value)
  {
  }

  /**
   * A rejected file: the warning is shown and the input cleared; `file` and
   * `fileName` keep whatever an earlier selection put there.
   */
  lemma ChangeFileRejected(c: Controller, f: File, value: string)
    requires !MatchesImagePattern(f.name)
    ensures var r := ChangeFile(c, Some(f), value);
            && !r.warningHidden && r.inputValue == ""
            && r.file == c.file && r.fileName == c.fileName
            && r == c.(warningHidden := false, inputValue := "")
  {
  }

  /**
   * An empty file list: reading the name of `files[0]` throws, and only the
   * input's value, set by the browser before the event, is new.
   */
  lemma ChangeFileNoFile(c: Controller, value: string)
    ensures var r := ChangeFile(c, None, value);
            && r.file == c.file && r.fileName == c.fileName
            && r.warningHidden == c.warningHidden && r.trace == c.trace
            && r == c.(inputValue := value)
  {
  }

  /** One change event: the file list's first entry and the input's value. */
  datatype Selection = Selection(selected: Option<File>, value: string)

  predicate Accepted(s: Selection) {
    s.selected.Some? && MatchesImagePattern(s.selected.value.name)
  }

  /** The state after a sequence of change events, in order. */
  function ChangeFiles(c: Controller, sels: seq<Selection>): Controller {
    if sels == [] then c
    else
      var last := sels[|sels| - 1];
      ChangeFile(ChangeFiles(c, sels[..|sels| - 1]), last.selected, last.value)
  }

  /** The most recent accepted selection of a sequence, if there is one. */
  function LastAccepted(sels: seq<Selection>): (r: Option<Selection>)
    ensures r.Some? ==> r.value in sels && Accepted(r.value)
    ensures r.None? ==> forall k :: 0 <= k < |sels| ==> !Accepted(sels[k])
  {
    if sels == [] then None
    else if Accepted(sels[|sels| - 1]) then Some(sels[|sels| - 1])
    else LastAccepted(sels[..|sels| - 1])
  }

  /**
   * The selection LastAccepted picks is the most recent accepted one: it sits
   * at some position after which no selection is accepted.
   */
  lemma {:induction false} LastAcceptedIsMostRecent(sels: seq<Selection>)
    ensures var r := LastAccepted(sels);
            r.Some? ==> exists k :: 0 <= k < |sels| && sels[k] == r.value
                                    && forall j :: k < j < |sels| ==> !Accepted(sels[j])
  {
    if sels != [] && !Accepted(sels[|sels| - 1]) {
      var earlier := sels[..|sels| - 1];
      LastAcceptedIsMostRecent(earlier);
      if LastAccepted(earlier).Some? {
        var k :| 0 <= k < |earlier| && earlier[k] == LastAccepted(earlier).value
                 && forall j :: k < j < |earlier| ==> !Accepted(earlier[j]);
        assert sels[k] == earlier[k];
        assert forall j :: k < j < |sels| ==> !Accepted(sels[j]) by {
          forall j | k < j < |sels| ensures !Accepted(sels[j]) {
            if j < |earlier| { assert sels[j] == earlier[j]; }
          }
        }
      }
    } else if sels != [] {
      assert sels[|sels| - 1] == LastAccepted(sels).value;
    }
  }

  /**
   * Last valid selection wins: after any sequence of change events, `file`
   * and `fileName` come from the most recent accepted selection, or are what
   * they were before when none was accepted.
   */
  lemma {:induction false} LastSelectionWins(c: Controller, sels: seq<Selection>)
    ensures var r := ChangeFiles(c, sels);
            match LastAccepted(sels)
            case Some(s) => r.file == s.selected && r.fileName == Some(LastSegment(s.value))
            case None => r.file == c.file && r.fileName == c.fileName
  {
    if sels != [] {
      LastSelectionWins(c, sels[..|sels| - 1]);
    }
  }

  /** From a fresh controller, a name is recorded only by an accepted selection. */
  lemma FreshSelections(hasStore: bool, hidden: bool, input: string, sels: seq<Selection>)
    ensures var r := ChangeFiles(Init(hasStore, hidden, input), sels);
            r.fileName == (match LastAccepted(sels)
                           case Some(s) => Some(LastSegment(s.value))
                           case None => None)
  {
    LastSelectionWins(Init(hasStore, hidden, input), sels);
  }

  /** Selecting `justif.webp` and then `justif.png` keeps the second one. */
  lemma WebpThenPng(c: Controller, webp: File, png: File)
    requires webp.name == "justif.webp" && png.name == "justif.png"
    ensures var r := ChangeFiles(c, [Selection(Some(webp), "C:\\fakepath\\justif.webp"),
                                     Selection(Some(png), "C:\\fakepath\\justif.png")]);
            r.fileName == Some("justif.png") && r.file == Some(png) && r.warningHidden
  {
    ImagePatternAccepts();
    ImagePatternRejects();
    LastSegmentExample();
    var sels := [Selection(Some(webp), "C:\\fakepath\\justif.webp"),
                 Selection(Some(png), "C:\\fakepath\\justif.png")];
    assert sels[..1][..0] == [];
  }

  // ---------------------------------------------------------------------
  // handleSubmit and updateBill

  /**
   * The submit handler throws before doing anything observable when the
   * session has no user (`JSON.parse(null).email`) or the controller has no
   * store (`this.store.bills()` on null).
   */
  predicate SubmitThrows(c: Controller, session: Option<User>) {
    session.None? || !c.hasStore
  }

  function Submit(c: Controller, session: Option<User>, form: FormInput): (r: Controller)
    ensures ValidState(c) ==> ValidState(r)
  {
    if SubmitThrows(c, session) then c
    else
      var email := session.value.email;
      var bill := BuildBill(email, form, c.fileUrl, c.fileName);
      var id := c.nextRequest;
      c.(pending := c.pending[id := AwaitingCreate(bill)],
         nextRequest := id + 1,
         trace := c.trace + [StoreCreate(id, CreateRequest(c.file, email, true)), Navigate(BillsRoute)])
  }

  /** `updateBill(bill)`: nothing without a store, otherwise `update` keyed by `billId`. */
  function UpdateBillStep(c: Controller, bill: Bill): (r: Controller)
    ensures ValidState(c) ==> ValidState(r)
    ensures !c.hasStore ==> r == c
    ensures c.hasStore ==> r.trace == c.trace + [StoreUpdate(c.nextRequest, bill, c.billId)]
                           && AwaitsUpdate(r, c.nextRequest) && r.nextRequest == c.nextRequest + 1
  {
    if !c.hasStore then c
    else
      var id := c.nextRequest;
      c.(pending := c.pending[id := AwaitingUpdate],
         nextRequest := id + 1,
         trace := c.trace + [StoreUpdate(id, bill, c.billId)])
  }

  predicate AwaitsCreate(c: Controller, id: nat) {
    id in c.pending && c.pending[id].AwaitingCreate?
  }

  predicate AwaitsUpdate(c: Controller, id: nat) {
    id in c.pending && c.pending[id].AwaitingUpdate?
  }

  /** The `then` of `create`: record `key` and `fileUrl`, then `updateBill` with the captured record. */
  function CreateResolved(c: Controller, id: nat, fileUrl: string, key: string): (r: Controller)
    requires AwaitsCreate(c, id)
    ensures ValidState(c) ==> ValidState(r)
  {
    var bill := c.pending[id].bill;
    UpdateBillStep(c.(billId := Some(key), fileUrl := Some(fileUrl), pending := c.pending - {id}), bill)
  }

  /** The `catch` of `create`: the error is logged. */
  function CreateRejected(c: Controller, id: nat, error: string): (r: Controller)
    requires AwaitsCreate(c, id)
    ensures ValidState(c) ==> ValidState(r)
  {
    c.(pending := c.pending - {id}, trace := c.trace + [ErrorLogged(error)])
  }

  /** The `then` of `update`: back to the bill list. */
  function UpdateResolved(c: Controller, id: nat): (r: Controller)
    requires AwaitsUpdate(c, id)
    ensures ValidState(c) ==> ValidState(r)
  {
    c.(pending := c.pending - {id}, trace := c.trace + [Navigate(BillsRoute)])
  }

  /** The `catch` of `update`: the error is logged. */
  function UpdateRejected(c: Controller, id: nat, error: string): (r: Controller)
    requires AwaitsUpdate(c, id)
    ensures ValidState(c) ==> ValidState(r)
  {
    c.(pending := c.pending - {id}, trace := c.trace + [ErrorLogged(error)])
  }

  // ---------------------------------------------------------------------
  // Counting effects in a trace

  function Navigations(t: seq<Effect>): nat {
    if t == [] then 0 else Navigations(t[..|t| - 1]) + (if t[|t| - 1].Navigate? then 1 else 0)
  }

  function Updates(t: seq<Effect>): nat {
    if t == [] then 0 else Updates(t[..|t| - 1]) + (if t[|t| - 1].StoreUpdate? then 1 else 0)
  }

  lemma {:induction false} CountsAppend(a: seq<Effect>, b: seq<Effect>)
    ensures Navigations(a + b) == Navigations(a) + Navigations(b)
    ensures Updates(a + b) == Updates(a) + Updates(b)
  {
    if b != [] {
      assert (a + b)[..|a + b| - 1] == a + b[..|b| - 1];
      CountsAppend(a, b[..|b| - 1]);
    } else {
      assert a + b == a;
    }
  }

  lemma CountsOfTwo(x: Effect, y: Effect)
    ensures Navigations([x, y]) == (if x.Navigate? then 1 else 0) + (if y.Navigate? then 1 else 0)
    ensures Updates([x, y]) == (if x.StoreUpdate? then 1 else 0) + (if y.StoreUpdate? then 1 else 0)
  {
    assert [x, y][..1] == [x];
    CountsOfOne(x);
  }

  lemma CountsOfThree(x: Effect, y: Effect, z: Effect)
    ensures Navigations([x, y, z]) == Navigations([x, y]) + (if z.Navigate? then 1 else 0)
    ensures Updates([x, y, z]) == Updates([x, y]) + (if z.StoreUpdate? then 1 else 0)
  {
    assert [x, y, z][..2] == [x, y];
  }

  lemma CountsOfOne(x: Effect)
    ensures Navigations([x]) == (if x.Navigate? then 1 else 0)
    ensures Updates([x]) == (if x.StoreUpdate? then 1 else 0)
  {
    assert [x][..0] == [];
  }

  // ---------------------------------------------------------------------
  // Properties of submission

  /** Without a user or a store, submitting changes nothing and navigates nowhere. */
  lemma SubmitThrowsChangesNothing(c: Controller, session: Option<User>, form: FormInput)
    requires SubmitThrows(c, session)
    ensures Submit(c, session, form) == c
  {
  }

  /**
   * A submission issues `create` with the selected file and the session
   * e-mail, then navigates to the bill list once, and issues no `update`. It
   * keeps, for the continuation, a record with status "pending", the session
   * e-mail and the `fileUrl`/`fileName` the controller has at that moment.
   */
  lemma SubmitIssuesCreateThenNavigates(c: Controller, session: Option<User>, form: FormInput)
    requires !SubmitThrows(c, session)
    ensures var r := Submit(c, session, form);
            var id := c.nextRequest;
            var email := session.value.email;
            && r.trace == c.trace + [StoreCreate(id, CreateRequest(c.file, email, true)), Navigate(BillsRoute)]
            && Navigations(r.trace) == Navigations(c.trace) + 1
            && Updates(r.trace) == Updates(c.trace)
            && AwaitsCreate(r, id)
            && r.pending[id].bill.status == "pending"
            && r.pending[id].bill.email == email
            && r.pending[id].bill.fileUrl == c.fileUrl
            && r.pending[id].bill.fileName == c.fileName
            && r.file == c.file && r.fileName == c.fileName && r.fileUrl == c.fileUrl
            && r.warningHidden == c.warningHidden && r.inputValue == c.inputValue
            && r.billId == c.billId
  {
    var id := c.nextRequest;
    var email := session.value.email;
    CountsAppend(c.trace, [StoreCreate(id, CreateRequest(c.file, email, true)), Navigate(BillsRoute)]);
    CountsOfTwo(StoreCreate(id, CreateRequest(c.file, email, true)), Navigate(BillsRoute));
  }

  /**
   * When `create` resolves, `billId` becomes the key and `fileUrl` the
   * returned URL, and one `update` is issued with `selector` equal to the key
   * and the record captured at submit time, whose `fileUrl` is the old one.
   * No navigation happens yet.
   */
  lemma CreateResolvedIssuesUpdate(c: Controller, id: nat, fileUrl: string, key: string)
    requires ValidState(c) && AwaitsCreate(c, id)
    ensures var r := CreateResolved(c, id, fileUrl, key);
            && r.billId == Some(key) && r.fileUrl == Some(fileUrl)
            && r.trace == c.trace + [StoreUpdate(c.nextRequest, c.pending[id].bill, Some(key))]
            && Navigations(r.trace) == Navigations(c.trace)
            && Updates(r.trace) == Updates(c.trace) + 1
            && !AwaitsCreate(r, id) && AwaitsUpdate(r, c.nextRequest)
            && r.file == c.file && r.fileName == c.fileName
            && r.warningHidden == c.warningHidden && r.inputValue == c.inputValue
  {
    var u := StoreUpdate(c.nextRequest, c.pending[id].bill, Some(key));
    CountsAppend(c.trace, [u]);
    CountsOfOne(u);
  }

  /** When `create` rejects, the error is logged and nothing else happens: no `update`. */
  lemma CreateRejectedLogsOnly(c: Controller, id: nat, error: string)
    requires AwaitsCreate(c, id)
    ensures var r := CreateRejected(c, id, error);
            && r.trace == c.trace + [ErrorLogged(error)]
            && Navigations(r.trace) == Navigations(c.trace)
            && Updates(r.trace) == Updates(c.trace)
            && r.file == c.file && r.fileName == c.fileName
            && r.fileUrl == c.fileUrl && r.billId == c.billId
            && !AwaitsCreate(r, id)
  {
    CountsAppend(c.trace, [ErrorLogged(error)]);
    CountsOfOne(ErrorLogged(error));
  }

  /** When `update` resolves, the controller navigates to the bill list a second time. */
  lemma UpdateResolvedNavigates(c: Controller, id: nat)
    requires AwaitsUpdate(c, id)
    ensures var r := UpdateResolved(c, id);
            && r.trace == c.trace + [Navigate(BillsRoute)]
            && Navigations(r.trace) == Navigations(c.trace) + 1
            && Updates(r.trace) == Updates(c.trace)
            && !AwaitsUpdate(r, id)
            && r.file == c.file && r.fileName == c.fileName
            && r.fileUrl == c.fileUrl && r.billId == c.billId
  {
    CountsAppend(c.trace, [Navigate(BillsRoute)]);
    CountsOfOne(Navigate(BillsRoute));
  }

  /** When `update` rejects, the error is logged: no navigation and no further `update`. */
  lemma UpdateRejectedLogsOnly(c: Controller, id: nat, error: string)
    requires AwaitsUpdate(c, id)
    ensures var r := UpdateRejected(c, id, error);
            && r.trace == c.trace + [ErrorLogged(error)]
            && Navigations(r.trace) == Navigations(c.trace)
            && Updates(r.trace) == Updates(c.trace)
            && r.file == c.file && r.fileName == c.fileName
            && r.fileUrl == c.fileUrl && r.billId == c.billId
            && !AwaitsUpdate(r, id)
  {
    CountsAppend(c.trace, [ErrorLogged(error)]);
    CountsOfOne(ErrorLogged(error));
  }

  /**
   * Submit and a resolved `create`, end to end: the update carries the record
   * built from the form and the pre-submit `fileUrl`/`fileName`, keyed by the
   * returned key, while the controller's `fileUrl` is now the returned URL.
   */
  lemma SubmitThenCreateResolved(c: Controller, session: Option<User>, form: FormInput,
                                 fileUrl: string, key: string)
    requires !SubmitThrows(c, session)
    ensures var s := Submit(c, session, form);
            var id := c.nextRequest;
            var email := session.value.email;
            AwaitsCreate(s, id) &&
            var r := CreateResolved(s, id, fileUrl, key);
            && r.trace == c.trace + [StoreCreate(id, CreateRequest(c.file, email, true)),
                                     Navigate(BillsRoute),
                                     StoreUpdate(id + 1, BuildBill(email, form, c.fileUrl, c.fileName), Some(key))]
            && r.fileUrl == Some(fileUrl) && r.billId == Some(key)
            && Navigations(r.trace) == Navigations(c.trace) + 1
  {
    SubmitIssuesCreateThenNavigates(c, session, form);
    var email := session.value.email;
    ResolveAfterIssue(c.trace, Submit(c, session, form), c.nextRequest,
                      StoreCreate(c.nextRequest, CreateRequest(c.file, email, true)),
                      BuildBill(email, form, c.fileUrl, c.fileName), fileUrl, key);
  }

  /** Resolving a `create` issued as request `id` right after the effects `t + [a, Navigate]`. */
  lemma ResolveAfterIssue(t: seq<Effect>, s: Controller, id: nat, a: Effect, bill: Bill,
                          fileUrl: string, key: string)
    requires s.hasStore && s.nextRequest == id + 1 && AwaitsCreate(s, id) && s.pending[id].bill == bill
    requires s.trace == t + [a, Navigate(BillsRoute)] && !a.Navigate?
    ensures var r := CreateResolved(s, id, fileUrl, key);
            && r.trace == t + [a, Navigate(BillsRoute), StoreUpdate(id + 1, bill, Some(key))]
            && r.fileUrl == Some(fileUrl) && r.billId == Some(key)
            && Navigations(r.trace) == Navigations(t) + 1
  {
    var u := StoreUpdate(id + 1, bill, Some(key));
    assert t + [a, Navigate(BillsRoute)] + [u] == t + [a, Navigate(BillsRoute), u];
    CountsAppend(t, [a, Navigate(BillsRoute)]);
    CountsOfTwo(a, Navigate(BillsRoute));
  }

  /** Submit and a rejected `create`: one navigation, one logged error, no `update` ever. */
  lemma SubmitThenCreateRejected(c: Controller, session: Option<User>, form: FormInput, error: string)
    requires !SubmitThrows(c, session)
    ensures var s := Submit(c, session, form);
            var id := c.nextRequest;
            AwaitsCreate(s, id) &&
            var r := CreateRejected(s, id, error);
            && r.trace == c.trace + [StoreCreate(id, CreateRequest(c.file, session.value.email, true)),
                                     Navigate(BillsRoute), ErrorLogged(error)]
            && Navigations(r.trace) == Navigations(c.trace) + 1
            && Updates(r.trace) == Updates(c.trace)
  {
    SubmitIssuesCreateThenNavigates(c, session, form);
    RejectAfterIssue(c.trace, Submit(c, session, form), c.nextRequest,
                     StoreCreate(c.nextRequest, CreateRequest(c.file, session.value.email, true)), error);
  }

  /** Rejecting a `create` issued as request `id` right after the effects `t + [a, Navigate]`. */
  lemma RejectAfterIssue(t: seq<Effect>, s: Controller, id: nat, a: Effect, error: string)
    requires AwaitsCreate(s, id) && s.trace == t + [a, Navigate(BillsRoute)]
    requires !a.Navigate? && !a.StoreUpdate?
    ensures var r := CreateRejected(s, id, error);
            && r.trace == t + [a, Navigate(BillsRoute), ErrorLogged(error)]
            && Navigations(r.trace) == Navigations(t) + 1
            && Updates(r.trace) == Updates(t)
  {
    var e := ErrorLogged(error);
    assert t + [a, Navigate(BillsRoute)] + [e] == t + [a, Navigate(BillsRoute), e];
    CountsAppend(t, [a, Navigate(BillsRoute), e]);
    CountsOfThree(a, Navigate(BillsRoute), e);
    CountsOfTwo(a, Navigate(BillsRoute));
  }

  // ---------------------------------------------------------------------
  // The controller object

  class NewBill {
    const hasStore: bool
    var file: Option<File>
    var fileUrl: Option<string>
    var fileName: Option<string>
    var billId: Option<string>
    var warningHidden: bool
    var inputValue: string
    var pending: map<nat, Awaiting>
    var nextRequest: nat
    var trace: seq<Effect>

    /** The fields as a value of the state the transition functions act on. */
    function State(): Controller
      reads this
    {
      Controller(hasStore, file, fileUrl, fileName, billId, warningHidden, inputValue,
                 pending, nextRequest, trace)
    }

    ghost predicate Valid()
      reads this
    {
      ValidState(State())
    }

    /** `hasStore` says whether a store was passed; the page gives the initial view. */
    constructor (hasStore: bool, warningHidden: bool, inputValue: string)
      ensures Valid()
      ensures State() == Init(hasStore, warningHidden, inputValue)
    {
      this.hasStore := hasStore;
      this.warningHidden := warningHidden;
      this.inputValue := inputValue;
      file := None;
      fileUrl := None;
      fileName := None;
      billId := None;
      pending := map[];
      nextRequest := 0;
      trace := [];
    }

    method HandleChangeFile(selected: Option<File>, value: string) returns (threw: bool)
      requires Valid()
      modifies this
      ensures threw == ChangeFileThrows(selected)
      ensures State() == ChangeFile(old(State()), selected, value)
      ensures Valid()
    {
      inputValue := value;
      if selected.None? {
        return true;
      }
      threw := false;
      var f := selected.value;
      if MatchesImagePattern(f.name) {
        warningHidden := true;
        var filePath := SplitBackslash(value);
        var name := filePath[|filePath| - 1];
        file := selected;
        fileName := Some(name);
      } else {
        warningHidden := false;
        inputValue := "";
      }
    }

    method HandleSubmit(session: Option<User>, form: FormInput) returns (threw: bool)
      requires Valid()
      modifies this
      ensures threw == SubmitThrows(old(State()), session)
      ensures State() == Submit(old(State()), session, form)
      ensures Valid()
    {
      threw := session.None? || !hasStore;
      if !threw {
        var email := session.value.email;
        var bill := BuildBill(email, form, fileUrl, fileName);
        var id := nextRequest;
        pending := pending[id := AwaitingCreate(bill)];
        nextRequest := id + 1;
        // `create` is issued first; the navigation follows synchronously.
        trace := trace + [StoreCreate(id, CreateRequest(file, email, true)), Navigate(BillsRoute)];
      }
    }

    method UpdateBill(bill: Bill)
      requires Valid()
      modifies this
      ensures State() == UpdateBillStep(old(State()), bill)
      ensures Valid()
    {
      if hasStore {
        var id := nextRequest;
        trace := trace + [StoreUpdate(id, bill, billId)];
        pending := pending[id := AwaitingUpdate];
        nextRequest := id + 1;
      }
    }

    method OnCreateResolved(request: nat, url: string, key: string)
      requires Valid() && AwaitsCreate(State(), request)
      modifies this
      ensures State() == CreateResolved(old(State()), request, url, key)
      ensures Valid()
    {
      var bill := pending[request].bill;
      pending := pending - {request};
      billId := Some(key);
      fileUrl := Some(url);
      UpdateBill(bill);
    }

    method OnCreateRejected(request: nat, error: string)
      requires Valid() && AwaitsCreate(State(), request)
      modifies this
      ensures State() == CreateRejected(old(State()), request, error)
      ensures Valid()
    {
      pending := pending - {request};
      trace := trace + [ErrorLogged(error)];
    }

    method OnUpdateResolved(request: nat)
      requires Valid() && AwaitsUpdate(State(), request)
      modifies this
      ensures State() == UpdateResolved(old(State()), request)
      ensures Valid()
    {
      pending := pending - {request};
      trace := trace + [Navigate(BillsRoute)];
    }

    method OnUpdateRejected(request: nat, error: string)
      requires Valid() && AwaitsUpdate(State(), request)
      modifies this
      ensures State() == UpdateRejected(old(State()), request, error)
      ensures Valid()
    {
      pending := pending - {request};
      trace := trace + [ErrorLogged(error)];
    }
  }
}
