/** The extraction log document that `add_to_log` builds: a dict from
    category name to either a list (no sub-category) or a dict from
    sub-category to a list or a summary value.  The Python container
    operations it uses (`in`, `[key]`, `[key] = v`, `.append`) are modelled
    over `Value` with the exceptions they raise; an exception leaves in the
    document whatever was written before it. */
module ExtractionLog {
  import opened Wrappers
  import opened PyValue
  import opened PyDict
  import PyStr

  type Logs = seq<(string, Value)>

  /** What `add_to_log` receives as `exception`: nothing, a caught exception,
      or (as `ontologyInfo` callers pass) a plain text. */
  datatype LogException = NoException | Raised(error: PyError) | Reason(text: string)

  /** Python's `type(v).__name__`. */
  function TypeName(v: Value): string {
    match v
    case VNone => "NoneType"
    case VBool(_) => "bool"
    case VInt(_) => "int"
    case VFloat(_) => "float"
    case VStr(_) => "str"
    case VList(_) => "list"
    case VTuple(_) => "tuple"
    case VDict(_) => "dict"
    case VDateTime(_, _) => "datetime"
    case VOther(t, _, _) => t
  }

  /** `f"{type(exception)} - {exception}"`. */
  function ExceptionText(e: LogException): string {
    match e
    case NoException => "<class 'NoneType'> - None"
    case Raised(err) => ErrorText(err)
    case Reason(t) => "<class 'str'> - " + t
  }

  /** The exception object stored as a value. */
  function ExceptionValue(e: LogException): Value {
    match e
    case NoException => VNone
    case Raised(err) => ErrorValue(err)
    case Reason(t) => VStr(t)
  }

  // ------------------------------------------------------------ container operations

  /** `key in container`. */
  function Holds(container: Value, key: Value): Result<bool, PyError> {
    match container
    case VDict(entries) => Ok(HasKey(entries, key))
    case VList(items) => Ok(key in items)
    case VTuple(items) => Ok(key in items)
    case VStr(s) =>
      if key.VStr? then Ok(PyStr.Contains(s, key.s))
      else Err(TypeError("'in <string>' requires string as left operand, not " + TypeName(key)))
    case _ => Err(TypeError("argument of type '" + TypeName(container) + "' is not iterable"))
  }

  /** The position a Python list index denotes, negative indices counting from the end. */
  function ListIndex(n: nat, i: int): Option<nat> {
    if i >= 0 then (if i < n then Some(i) else None)
    else if i + n >= 0 then Some(i + n)
    else None
  }

  /** `container[key]`. */
  function Item(container: Value, key: Value): Result<Value, PyError> {
    match container
    case VDict(entries) =>
      (match Get(entries, key) case Some(v) => Ok(v) case None => Err(KeyError(key)))
    case VList(items) =>
      if !key.VInt? then Err(TypeError("list indices must be integers or slices, not " + TypeName(key)))
      else
        (match ListIndex(|items|, key.i)
         case Some(k) => Ok(items[k])
         case None => Err(IndexError("list index out of range")))
    case _ => Err(TypeError("'" + TypeName(container) + "' object is not subscriptable"))
  }

  /** `container[key] = v`, as the container it leaves. */
  function Stored(container: Value, key: Value, v: Value): Result<Value, PyError> {
    match container
    case VDict(entries) => Ok(VDict(Set(entries, key, v)))
    case VList(items) =>
      if !key.VInt? then Err(TypeError("list indices must be integers or slices, not " + TypeName(key)))
      else
        (match ListIndex(|items|, key.i)
         case Some(k) => Ok(VList(items[k := v]))
         case None => Err(IndexError("list assignment index out of range")))
    case _ => Err(TypeError("'" + TypeName(container) + "' object does not support item assignment"))
  }

  /** `container[key].append(x)`, as the container it leaves. */
  function Appended(container: Value, key: Value, x: Value): Result<Value, PyError> {
    match Item(container, key)
    case Err(e) => Err(e)
    case Ok(VList(items)) => Stored(container, key, VList(items + [x]))
    case Ok(other) => Err(AttributeError("'" + TypeName(other) + "' object has no attribute 'append'"))
  }

  // ------------------------------------------------------------ add_to_log

  /** The categories whose sub-category is overwritten with the message. */
  const SummaryCategories: set<string> :=
    {"multiple_parameters_info", "no_parameter_info", "parameter_does_not_exist",
     "synthesis", "inconsistencies", "duplicateParametersGlossary"}

  /** The value stored under a category, None when there is none. */
  function Category(logs: Logs, category: string): Value {
    match Get(logs, category) case Some(v) => v case None => VNone
  }

  /** The entry `errors` appends: the message, and the exception text exactly
      when an exception is given. */
  function ErrorInfo(message: Value, exception: LogException): (info: Value)
    ensures info.VDict? && UniqueKeys(info.entries)
    ensures Get(info.entries, VStr("message")) == Some(message)
    ensures HasKey(info.entries, VStr("error")) <==> !exception.NoException?
    ensures !exception.NoException? ==> Get(info.entries, VStr("error")) == Some(VStr(ExceptionText(exception)))
    ensures |info.entries| == if exception.NoException? then 1 else 2
  {
    var first := [(VStr("message"), message)];
    if exception.NoException? then VDict(first)
    else
      var both := first + [(VStr("error"), VStr(ExceptionText(exception)))];
      assert both[1].0 == VStr("error") && both[0].0 == VStr("message");
      VDict(both)
  }

  /** The entry `ontologyInfo` appends. */
  function OntologyInfo(message: Value, exception: LogException): Value {
    VDict([(VStr("id"), message), (VStr("error"), ExceptionValue(exception))])
  }


  /** The first step: a missing category is created as a list when there is no
      sub-category and as a dict otherwise. */
  function Created(logs: Logs, category: string, sub: Value): Logs {
    if HasKey(logs, category) then logs
    else Set(logs, category, if sub == VNone then VList([]) else VDict([]))
  }

  /** The second step, on the category's container `c`: a missing
      sub-category is created as an empty list (None: `c` stays as it is). */
  function PreparedValue(c: Value, sub: Value): Result<Option<Value>, PyError> {
    if sub == VNone then Ok(None)
    else
      match Holds(c, sub)
      case Err(e) => Err(e)
      case Ok(true) => Ok(None)
      case Ok(false) =>
        (match Stored(c, sub, VList([]))
         case Err(e) => Err(e)
         case Ok(c') => Ok(Some(c')))
  }

  /** How the last step treats a category. */
  datatype CategoryKind = DateKind | ErrorsKind | DetailsKind | OntologyInfoKind | SummaryKind | OtherKind

  function KindOf(category: string): CategoryKind {
    if category == "date" then DateKind
    else if category == "errors" then ErrorsKind
    else if category == "details" then DetailsKind
    else if category == "ontologyInfo" then OntologyInfoKind
    else if category in SummaryCategories then SummaryKind
    else OtherKind
  }

  /** The last step, by kind of category, on the category's container `c`
      (None: `c` stays as it is). */
  function WrittenValue(c: Value, kind: CategoryKind, sub: Value, message: Value,
                        exception: LogException, now: string): Option<Result<Value, PyError>>
  {
    match kind
    case DateKind => Some(Ok(VStr(now)))
    case ErrorsKind => Some(Appended(c, sub, ErrorInfo(message, exception)))
    case DetailsKind => if sub == VStr("scannedDirectories") then Some(Appended(c, sub, message)) else None
    case OntologyInfoKind => Some(Appended(c, sub, OntologyInfo(message, exception)))
    case SummaryKind => Some(Stored(c, sub, message))
    case OtherKind => None
  }

  /** The document after the last step, and the exception it raises. */
  function Written(logs: Logs, category: string, sub: Value, message: Value,
                   exception: LogException, now: string): (Logs, Option<PyError>)
  {
    match WrittenValue(Category(logs, category), KindOf(category), sub, message, exception, now)
    case None => (logs, None)
    case Some(Ok(c)) => (Set(logs, category, c), None)
    case Some(Err(e)) => (logs, Some(e))
  }

  /** The document after the first two steps, when the second succeeds. */
  function PreparedLogs(logs: Logs, category: string, sub: Value): Logs {
    var created := Created(logs, category, sub);
    match PreparedValue(Category(created, category), sub)
    case Ok(Some(c)) => Set(created, category, c)
    case _ => created
  }

  /** `add_to_log` on a document: the document it leaves and the exception it
      raises, if any.  `sub` is VNone when no sub-category is given; `now` is
      the formatted clock reading the `date` category stores. */
  function Logged(logs: Logs, category: string, sub: Value, message: Value,
                  exception: LogException, now: string): (Logs, Option<PyError>)
  {
    var created := Created(logs, category, sub);
    match PreparedValue(Category(created, category), sub)
    case Err(e) => (created, Some(e))
    case Ok(_) => Written(PreparedLogs(logs, category, sub), category, sub, message, exception, now)
  }

  /** One `add_to_log` call without an exception: category, sub-category
      (VNone for none) and message. */
  datatype LogWrite = LogWrite(category: string, sub: Value, message: Value)

  /** A run of `add_to_log` calls: the document they leave, stopping at the
      first call that raises, and what it raised. */
  function LoggedAll(logs: Logs, writes: seq<LogWrite>, now: string): (Logs, Option<PyError>) {
    if |writes| == 0 then (logs, None)
    else
      var before := LoggedAll(logs, writes[..|writes| - 1], now);
      var w := writes[|writes| - 1];
      if before.1.Some? then before else Logged(before.0, w.category, w.sub, w.message, NoException, now)
  }

  /** The calls of a run that raises nothing leave the category names distinct,
      and a category no call names as it was. */
  lemma {:induction false} LoggedAllKeeps(logs: Logs, writes: seq<LogWrite>, now: string, other: string)
    requires forall k :: 0 <= k < |writes| ==> writes[k].category != other
    ensures Get(LoggedAll(logs, writes, now).0, other) == Get(logs, other)
    ensures UniqueKeys(logs) ==> UniqueKeys(LoggedAll(logs, writes, now).0)
  {
    if |writes| > 0 {
      var init := writes[..|writes| - 1];
      var w := writes[|writes| - 1];
      LoggedAllKeeps(logs, init, now, other);
      var before := LoggedAll(logs, init, now);
      if before.1.None? {
        LoggedKeepsOthers(before.0, w.category, w.sub, w.message, NoException, now, other);
        if UniqueKeys(logs) { LoggedUnique(before.0, w.category, w.sub, w.message, NoException, now); }
      }
    }
  }

  /** Two runs one after the other are one run: the second is not made
      when the first raised. */
  lemma {:induction false} LoggedAllAppend(logs: Logs, first: seq<LogWrite>, second: seq<LogWrite>, now: string)
    ensures LoggedAll(logs, first + second, now) ==
      if LoggedAll(logs, first, now).1.Some? then LoggedAll(logs, first, now)
      else LoggedAll(LoggedAll(logs, first, now).0, second, now)
  {
    if |second| == 0 {
      assert first + second == first;
    } else {
      var init := second[..|second| - 1];
      assert (first + second)[..|first + second| - 1] == first + init;
      LoggedAllAppend(logs, first, init, now);
    }
  }

  // ------------------------------------------------------------ properties

  /** The dict a category holds, empty when it holds no dict. */
  function SubEntries(logs: Logs, category: string): seq<(Value, Value)> {
    var c := Category(logs, category);
    if c.VDict? then c.entries else []
  }

  lemma CategorySet(logs: Logs, category: string, v: Value, other: string)
    ensures Category(Set(logs, category, v), other) == if other == category then v else Category(logs, other)
  {
    SetGet(logs, category, v, other);
  }

  /** Each step writes at most the named category and keeps the names distinct. */
  lemma CreatedKeeps(logs: Logs, category: string, sub: Value, other: string)
    ensures other != category ==> Get(Created(logs, category, sub), other) == Get(logs, other)
    ensures UniqueKeys(logs) ==> UniqueKeys(Created(logs, category, sub))
  {
    if !HasKey(logs, category) {
      var v := if sub == VNone then VList([]) else VDict([]);
      SetGet(logs, category, v, other);
      if UniqueKeys(logs) { SetUnique(logs, category, v); }
    }
  }

  lemma WrittenKeeps(logs: Logs, category: string, sub: Value, message: Value,
                     exception: LogException, now: string, other: string)
    ensures other != category ==> Get(Written(logs, category, sub, message, exception, now).0, other) == Get(logs, other)
    ensures UniqueKeys(logs) ==> UniqueKeys(Written(logs, category, sub, message, exception, now).0)
  {
    match WrittenValue(Category(logs, category), KindOf(category), sub, message, exception, now)
    case None =>
    case Some(Err(e)) =>
    case Some(Ok(c)) =>
      SetGet(logs, category, c, other);
      if UniqueKeys(logs) { SetUnique(logs, category, c); }
  }

  lemma PreparedKeeps(logs: Logs, category: string, sub: Value, other: string)
    ensures other != category ==> Get(PreparedLogs(logs, category, sub), other) == Get(logs, other)
    ensures UniqueKeys(logs) ==> UniqueKeys(PreparedLogs(logs, category, sub))
  {
    var created := Created(logs, category, sub);
    CreatedKeeps(logs, category, sub, other);
    match PreparedValue(Category(created, category), sub)
    case Ok(Some(c)) =>
      SetGet(created, category, c, other);
      if UniqueKeys(created) { SetUnique(created, category, c); }
    case _ =>
  }

  /** Only the named category changes. */
  lemma LoggedKeepsOthers(logs: Logs, category: string, sub: Value, message: Value,
                          exception: LogException, now: string, other: string)
    requires other != category
    ensures Get(Logged(logs, category, sub, message, exception, now).0, other) == Get(logs, other)
  {
    CreatedKeeps(logs, category, sub, other);
    PreparedKeeps(logs, category, sub, other);
    WrittenKeeps(PreparedLogs(logs, category, sub), category, sub, message, exception, now, other);
  }

  /** The category names stay distinct. */
  lemma LoggedUnique(logs: Logs, category: string, sub: Value, message: Value,
                     exception: LogException, now: string)
    requires UniqueKeys(logs)
    ensures UniqueKeys(Logged(logs, category, sub, message, exception, now).0)
  {
    CreatedKeeps(logs, category, sub, category);
    PreparedKeeps(logs, category, sub, category);
    WrittenKeeps(PreparedLogs(logs, category, sub), category, sub, message, exception, now, category);
  }

  /** The categories with a branch of their own are not summary categories. */
  lemma SummaryNotSpecial(category: string)
    requires category in SummaryCategories
    ensures category != "date" && category != "errors" && category != "details" && category != "ontologyInfo"
  {
  }

  /** Each kind is the category named for it; a summary category is of the
      summary kind. */
  lemma KindOfIff(category: string)
    ensures KindOf(category) == DateKind <==> category == "date"
    ensures KindOf(category) == ErrorsKind <==> category == "errors"
    ensures KindOf(category) == OntologyInfoKind <==> category == "ontologyInfo"
    ensures KindOf(category) == SummaryKind <==> category in SummaryCategories
  {
    if category in SummaryCategories {
      SummaryNotSpecial(category);
    }
  }

  /** With no sub-category, the last step fails on a list for the kinds that
      index it and leaves it alone for the others. */
  lemma WrittenOnList(kind: CategoryKind, message: Value, exception: LogException, now: string)
    requires kind != DateKind
    ensures var w := WrittenValue(VList([]), kind, VNone, message, exception, now);
      (w.None? || w.value.Err?) && (w.None? <==> kind == DetailsKind || kind == OtherKind)
  {
  }

  /** A new category without a sub-category is an empty list, whatever the
      category (the `errors`, `ontologyInfo` and summary writes then fail on
      the list and raise, leaving it empty). */
  lemma NewCategoryIsList(logs: Logs, category: string, message: Value,
                          exception: LogException, now: string)
    requires !HasKey(logs, category) && category != "date"
    ensures Category(Logged(logs, category, VNone, message, exception, now).0, category) == VList([])
    ensures Logged(logs, category, VNone, message, exception, now).1.None? <==>
            category != "errors" && category != "ontologyInfo" && category !in SummaryCategories
  {
    var created := Set(logs, category, VList([]));
    CategorySet(logs, category, VList([]), category);
    assert Logged(logs, category, VNone, message, exception, now) == Written(created, category, VNone, message, exception, now);
    KindOfIff(category);
    WrittenOnList(KindOf(category), message, exception, now);
  }

  /** With a sub-category, the last step on a container holding that
      sub-category as a list succeeds and writes a dict. */
  lemma WrittenOnDict(entries: seq<(Value, Value)>, kind: CategoryKind, sub: Value, message: Value,
                      exception: LogException, now: string)
    requires kind != DateKind && HasKey(entries, sub) && Get(entries, sub).value.VList?
    ensures var w := WrittenValue(VDict(entries), kind, sub, message, exception, now);
      w.None? || (w.value.Ok? && w.value.value.VDict? && KeySet(w.value.value.entries) == KeySet(entries))
  {
    match kind
    case ErrorsKind => AppendedKeys(entries, sub, ErrorInfo(message, exception));
    case DetailsKind => AppendedKeys(entries, sub, message);
    case OntologyInfoKind => AppendedKeys(entries, sub, OntologyInfo(message, exception));
    case SummaryKind => StoredKeys(entries, sub, message);
    case OtherKind =>
  }

  /** Appending to a list a dict holds keeps the dict's keys. */
  lemma AppendedKeys(entries: seq<(Value, Value)>, sub: Value, x: Value)
    requires HasKey(entries, sub) && Get(entries, sub).value.VList?
    ensures Appended(VDict(entries), sub, x).Ok? && Appended(VDict(entries), sub, x).value.VDict?
    ensures KeySet(Appended(VDict(entries), sub, x).value.entries) == KeySet(entries)
  {
    AppendedExisting(entries, sub, x);
    SetExistingKeys(entries, sub, VList(Get(entries, sub).value.items + [x]));
  }

  /** Overwriting a key a dict holds keeps the dict's keys. */
  lemma StoredKeys(entries: seq<(Value, Value)>, sub: Value, v: Value)
    requires HasKey(entries, sub)
    ensures Stored(VDict(entries), sub, v) == Ok(VDict(Set(entries, sub, v)))
    ensures KeySet(Set(entries, sub, v)) == KeySet(entries)
  {
    SetExistingKeys(entries, sub, v);
  }

  /** Once the first two steps succeed, `add_to_log` is the last step on the
      document they leave. */
  lemma LoggedAfterPrepared(logs: Logs, category: string, sub: Value, message: Value,
                            exception: LogException, now: string)
    requires PreparedValue(Category(Created(logs, category, sub), category), sub).Ok?
    ensures Logged(logs, category, sub, message, exception, now) ==
      Written(PreparedLogs(logs, category, sub), category, sub, message, exception, now)
  {
  }

  /** A dict with the sub-category opened as an empty list when it was missing. */
  function Opened(entries: seq<(Value, Value)>, sub: Value): seq<(Value, Value)> {
    if HasKey(entries, sub) then entries else Set(entries, sub, VList([]))
  }

  /** On a dict the second step opens the sub-category when it is missing. */
  lemma PreparedOnEntries(entries: seq<(Value, Value)>, sub: Value)
    requires sub != VNone
    ensures PreparedValue(VDict(entries), sub) ==
      if HasKey(entries, sub) then Ok(None) else Ok(Some(VDict(Set(entries, sub, VList([])))))
  {
    assert Holds(VDict(entries), sub) == Ok(HasKey(entries, sub));
  }

  /** On a category that is missing or a dict, the first two steps succeed and
      leave the dict with the sub-category opened. */
  lemma PreparedOnDict(logs: Logs, category: string, sub: Value)
    requires sub != VNone
    requires !HasKey(logs, category) || Category(logs, category).VDict?
    ensures PreparedValue(Category(Created(logs, category, sub), category), sub).Ok?
    ensures Category(PreparedLogs(logs, category, sub), category) == VDict(Opened(SubEntries(logs, category), sub))
  {
    var entries := SubEntries(logs, category);
    var created := Created(logs, category, sub);
    if !HasKey(logs, category) {
      CategorySet(logs, category, VDict([]), category);
    }
    assert Category(created, category) == VDict(entries);
    PreparedOnEntries(entries, sub);
    if !HasKey(entries, sub) {
      CategorySet(created, category, VDict(Set(entries, sub, VList([]))), category);
    }
  }

  /** Appending to an opened sub-category list. */
  lemma AppendedOpened(entries: seq<(Value, Value)>, sub: Value, x: Value)
    requires Get(entries, sub).None? || Get(entries, sub).value.VList?
    ensures Appended(VDict(Opened(entries, sub)), sub, x) ==
      Ok(VDict(Set(entries, sub, VList((match Get(entries, sub) case Some(l) => l.items case None => []) + [x]))))
  {
    if HasKey(entries, sub) {
      AppendedExisting(entries, sub, x);
    } else {
      AppendedMissing(entries, sub, x);
    }
  }

  lemma AppendedExisting(entries: seq<(Value, Value)>, sub: Value, x: Value)
    requires Get(entries, sub).Some? && Get(entries, sub).value.VList?
    ensures Appended(VDict(entries), sub, x) ==
      Ok(VDict(Set(entries, sub, VList(Get(entries, sub).value.items + [x]))))
  {
    var items := Get(entries, sub).value.items;
    assert Item(VDict(entries), sub) == Ok(VList(items));
  }

  lemma AppendedMissing(entries: seq<(Value, Value)>, sub: Value, x: Value)
    requires Get(entries, sub).None?
    ensures Appended(VDict(Set(entries, sub, VList([]))), sub, x) == Ok(VDict(Set(entries, sub, VList([] + [x]))))
  {
    SetGet(entries, sub, VList([]), sub);
    AppendedExisting(Set(entries, sub, VList([])), sub, x);
    SetSet(entries, sub, VList([]), VList([] + [x]));
  }

  /** A new category with a sub-category is a dict holding just that
      sub-category, and nothing is raised. */
  lemma NewCategoryIsDict(logs: Logs, category: string, sub: Value, message: Value,
                          exception: LogException, now: string)
    requires !HasKey(logs, category) && category != "date" && sub != VNone
    ensures Logged(logs, category, sub, message, exception, now).1.None?
    ensures Category(Logged(logs, category, sub, message, exception, now).0, category).VDict?
    ensures KeySet(SubEntries(Logged(logs, category, sub, message, exception, now).0, category)) == {sub}
  {
    assert Category(logs, category) == VNone;
    assert SubEntries(logs, category) == [];
    PreparedOnDict(logs, category, sub);
    LoggedAfterPrepared(logs, category, sub, message, exception, now);
    assert Opened([], sub) == [(sub, VList([]))];
    KindOfIff(category);
    WrittenOnFreshSub(PreparedLogs(logs, category, sub), category, sub, message, exception, now);
  }

  /** The last step on a category holding just an empty sub-category list
      succeeds and keeps just that sub-category. */
  lemma WrittenOnFreshSub(prepared: Logs, category: string, sub: Value, message: Value,
                          exception: LogException, now: string)
    requires KindOf(category) != DateKind && Category(prepared, category) == VDict([(sub, VList([]))])
    ensures Written(prepared, category, sub, message, exception, now).1.None?
    ensures Category(Written(prepared, category, sub, message, exception, now).0, category).VDict?
    ensures KeySet(SubEntries(Written(prepared, category, sub, message, exception, now).0, category)) == {sub}
  {
    var entries := [(sub, VList([]))];
    WrittenOnCategory(prepared, category, VDict(entries), sub, message, exception, now);
    assert entries[0] == (sub, VList([]));
    WrittenOnDict(entries, KindOf(category), sub, message, exception, now);
    KeySetSingle((sub, VList([])));
  }

  /** The last step on a category holding `c`: the category then holds what
      `WrittenValue` gives, or `c` when it gives nothing. */
  lemma WrittenOnCategory(logs: Logs, category: string, c: Value, sub: Value, message: Value,
                          exception: LogException, now: string)
    requires Category(logs, category) == c
    ensures var w := WrittenValue(c, KindOf(category), sub, message, exception, now);
      Category(Written(logs, category, sub, message, exception, now).0, category) ==
        if w.Some? && w.value.Ok? then w.value.value else c
    ensures var w := WrittenValue(c, KindOf(category), sub, message, exception, now);
      Written(logs, category, sub, message, exception, now).1.None? <==> w.None? || w.value.Ok?
  {
    var w := WrittenValue(c, KindOf(category), sub, message, exception, now);
    CategorySet(logs, category, if w.Some? && w.value.Ok? then w.value.value else c, category);
  }

  /** `errors` appends the error entry to its sub-category's list, creating the
      list when needed; nothing else in the category changes. */
  lemma ErrorsAppend(logs: Logs, sub: Value, message: Value, exception: LogException, now: string)
    requires sub != VNone
    requires !HasKey(logs, "errors") || Category(logs, "errors").VDict?
    requires Get(SubEntries(logs, "errors"), sub).None? || Get(SubEntries(logs, "errors"), sub).value.VList?
    ensures Logged(logs, "errors", sub, message, exception, now).1.None?
    ensures Category(Logged(logs, "errors", sub, message, exception, now).0, "errors") ==
      VDict(Set(SubEntries(logs, "errors"), sub,
        VList((match Get(SubEntries(logs, "errors"), sub) case Some(l) => l.items case None => [])
              + [ErrorInfo(message, exception)])))
  {
    var entries := SubEntries(logs, "errors");
    var info := ErrorInfo(message, exception);
    PreparedOnDict(logs, "errors", sub);
    var prepared := PreparedLogs(logs, "errors", sub);
    AppendedOpened(entries, sub, info);
    KindOfIff("errors");
    var c := VDict(Set(entries, sub, VList((match Get(entries, sub) case Some(l) => l.items case None => []) + [info])));
    CategorySet(prepared, "errors", c, "errors");
  }

  /** A summary category stores the message under its sub-category,
      replacing what was there. */
  lemma SummaryOverwrites(logs: Logs, category: string, sub: Value, message: Value,
                          exception: LogException, now: string)
    requires category in SummaryCategories && sub != VNone
    requires !HasKey(logs, category) || Category(logs, category).VDict?
    ensures Logged(logs, category, sub, message, exception, now).1.None?
    ensures Category(Logged(logs, category, sub, message, exception, now).0, category) ==
      VDict(Set(SubEntries(logs, category), sub, message))
  {
    var c := VDict(Set(SubEntries(logs, category), sub, message));
    CategorySet(PreparedLogs(logs, category, sub), category, c, category);
    PreparedOnDict(logs, category, sub);
    LoggedAfterPrepared(logs, category, sub, message, exception, now);
    KindOfIff(category);
    WrittenSummaryOn(PreparedLogs(logs, category, sub), category, SubEntries(logs, category), sub, message, exception, now);
  }

  /** The summary write on a category whose dict has the sub-category opened. */
  lemma WrittenSummaryOn(prepared: Logs, category: string, entries: seq<(Value, Value)>, sub: Value,
                         message: Value, exception: LogException, now: string)
    requires KindOf(category) == SummaryKind && Category(prepared, category) == VDict(Opened(entries, sub))
    ensures Written(prepared, category, sub, message, exception, now) ==
      (Set(prepared, category, VDict(Set(entries, sub, message))), None)
  {
    var withSub := Opened(entries, sub);
    assert WrittenValue(VDict(withSub), SummaryKind, sub, message, exception, now) == Some(Stored(VDict(withSub), sub, message));
    assert Stored(VDict(withSub), sub, message) == Ok(VDict(Set(withSub, sub, message)));
    OpenedThenSet(entries, sub, message);
  }

  /** Opening a sub-category and then writing it is writing it. */
  lemma OpenedThenSet(entries: seq<(Value, Value)>, sub: Value, v: Value)
    ensures Set(Opened(entries, sub), sub, v) == Set(entries, sub, v)
  {
    if !HasKey(entries, sub) {
      SetSet(entries, sub, VList([]), v);
    }
  }

  /** `date` without a sub-category stores the clock reading. */
  lemma DateStamp(logs: Logs, message: Value, exception: LogException, now: string)
    ensures Logged(logs, "date", VNone, message, exception, now).1.None?
    ensures Category(Logged(logs, "date", VNone, message, exception, now).0, "date") == VStr(now)
  {
    var created := Created(logs, "date", VNone);
    CategorySet(created, "date", VStr(now), "date");
  }
}
