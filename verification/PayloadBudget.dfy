/** The recursive payload check, which spends one shared node budget across the whole tree. */
module PayloadBudget {

  const MAX_NODES := 128
  const MAX_DEPTH := 4
  const MAX_ITEMS := 32
  const SAFE_STRING := 512
  const STRUCTURED_STRING := 256

  /** `prohibited` and `sensitive` are the verdicts of the key list and of redaction. */
  datatype Key = TextKey(text: string, prohibited: bool) | OtherKey

  datatype Entry = Entry(key: Key, sensitive: bool, value: Value)

  datatype Value =
    | Null
    | Boolean
    | Integer
    | Text(text: string, sensitive: bool)
    | Float(finite: bool)
    | List(items: seq<Value>)
    | Object(entries: seq<Entry>)
    | NotJson

  datatype Error =
    | TotalSize | NestingDepth | StringLength | Sensitive | NonFinite
    | ItemCount | NonStringKey | ProhibitedKey | NonJsonValue

  datatype Verdict = Accepted | Rejected(error: Error)

  datatype Checked = Checked(verdict: Verdict, used: nat)

  // ---------------------------------------------------------------- what is allowed

  function Decimal(n: nat): string {
    if n < 10 then ["0123456789"[n]] else Decimal(n / 10) + ["0123456789"[n % 10]]
  }

  function ItemPath(path: string, i: nat): string {
    path + "[" + Decimal(i) + "]"
  }

  function EntryPath(path: string, key: string): string {
    path + "." + key
  }

  predicate EndsWith(text: string, suffix: string) {
    |suffix| <= |text| && text[|text| - |suffix|..] == suffix
  }

  function StringLimit(path: string, structured: bool): nat {
    if !structured || EndsWith(path, ".failure_mechanism") then SAFE_STRING else STRUCTURED_STRING
  }

  /** Number of values in the tree, keys not counted. */
  function Nodes(v: Value): nat
    decreases v, 0
  {
    match v
    case List(items) => 1 + ItemNodes(items, |items|)
    case Object(entries) => 1 + EntryNodes(entries, |entries|)
    case _ => 1
  }

  function ItemNodes(items: seq<Value>, n: nat): nat
    requires n <= |items|
    decreases items, n
  {
    if n == 0 then 0 else ItemNodes(items, n - 1) + Nodes(items[n - 1])
  }

  function EntryNodes(entries: seq<Entry>, n: nat): nat
    requires n <= |entries|
    decreases entries, n
  {
    if n == 0 then 0
    else
      var e := entries[n - 1];
      assert e.value < e;
      EntryNodes(entries, n - 1) + Nodes(e.value)
  }

  predicate KeyAllowed(e: Entry, structured: bool) {
    e.key.TextKey? && !e.key.prohibited && !(structured && e.sensitive)
  }

  /** Every value of the tree is within its own limits; the node count is not part of this. */
  predicate Fits(v: Value, path: string, depth: nat, structured: bool)
    decreases v, 0
  {
    depth <= MAX_DEPTH &&
    match v
    case Null => true
    case Boolean => true
    case Integer => true
    case Text(text, sensitive) => |text| <= StringLimit(path, structured) && !(structured && sensitive)
    case Float(finite) => finite
    case List(items) =>
      |items| <= MAX_ITEMS
      && forall i :: 0 <= i < |items| ==> Fits(items[i], ItemPath(path, i), depth + 1, structured)
    case Object(entries) =>
      |entries| <= MAX_ITEMS
      && forall i :: 0 <= i < |entries| ==>
           KeyAllowed(entries[i], structured) && Fits(entries[i].value, EntryPath(path, entries[i].key.text), depth + 1, structured)
    case NotJson => false
  }

  // ---------------------------------------------------------------- the check in order

  function KeyError(e: Entry, structured: bool): (r: Verdict)
    ensures r.Accepted? <==> KeyAllowed(e, structured)
  {
    if e.key.OtherKey? then Rejected(NonStringKey)
    else if e.key.prohibited then Rejected(ProhibitedKey)
    else if structured && e.sensitive then Rejected(Sensitive)
    else Accepted
  }

  function Check(v: Value, path: string, depth: nat, structured: bool, before: nat): Checked
    decreases v, 0
  {
    var used := before + 1;
    if used > MAX_NODES then Checked(Rejected(TotalSize), used)
    else if depth > MAX_DEPTH then Checked(Rejected(NestingDepth), used)
    else
      match v
      case Null => Checked(Accepted, used)
      case Boolean => Checked(Accepted, used)
      case Integer => Checked(Accepted, used)
      case Text(text, sensitive) =>
        if |text| > StringLimit(path, structured) then Checked(Rejected(StringLength), used)
        else if structured && sensitive then Checked(Rejected(Sensitive), used)
        else Checked(Accepted, used)
      case Float(finite) => Checked(if finite then Accepted else Rejected(NonFinite), used)
      case List(items) =>
        if |items| > MAX_ITEMS then Checked(Rejected(ItemCount), used)
        else CheckItems(items, |items|, path, depth, structured, used)
      case Object(entries) =>
        if |entries| > MAX_ITEMS then Checked(Rejected(ItemCount), used)
        else CheckEntries(entries, |entries|, path, depth, structured, used)
      case NotJson => Checked(Rejected(NonJsonValue), used)
  }

  function CheckItems(items: seq<Value>, n: nat, path: string, depth: nat, structured: bool, before: nat): Checked
    requires n <= |items|
    decreases items, n
  {
    if n == 0 then Checked(Accepted, before)
    else
      var c := CheckItems(items, n - 1, path, depth, structured, before);
      if c.verdict.Rejected? then c else Check(items[n - 1], ItemPath(path, n - 1), depth + 1, structured, c.used)
  }

  function CheckEntries(entries: seq<Entry>, n: nat, path: string, depth: nat, structured: bool, before: nat): Checked
    requires n <= |entries|
    decreases entries, n
  {
    if n == 0 then Checked(Accepted, before)
    else
      var c := CheckEntries(entries, n - 1, path, depth, structured, before);
      var e := entries[n - 1];
      if c.verdict.Rejected? then c
      else if KeyError(e, structured).Rejected? then Checked(KeyError(e, structured), c.used)
      else
        assert e.value < e;
        Check(e.value, EntryPath(path, e.key.text), depth + 1, structured, c.used)
  }

  // ---------------------------------------------------------------- the meaning of acceptance

  /** Accepted exactly when the counter leaves room for the whole tree and every value fits;
      an accepted tree has spent exactly its own size. */
  lemma {:induction false} CheckMeans(v: Value, path: string, depth: nat, structured: bool, before: nat)
    ensures Check(v, path, depth, structured, before).verdict.Accepted?
            <==> before + Nodes(v) <= MAX_NODES && Fits(v, path, depth, structured)
    ensures Check(v, path, depth, structured, before).verdict.Accepted?
            ==> Check(v, path, depth, structured, before).used == before + Nodes(v)
    decreases v, 0
  {
    match v
    case List(items) =>
      CheckItemsMeans(items, |items|, path, depth, structured, before + 1);
    case Object(entries) =>
      CheckEntriesMeans(entries, |entries|, path, depth, structured, before + 1);
    case _ =>
  }

  lemma {:induction false} CheckItemsMeans(items: seq<Value>, n: nat, path: string, depth: nat, structured: bool, before: nat)
    requires n <= |items|
    ensures before <= MAX_NODES ==>
              (CheckItems(items, n, path, depth, structured, before).verdict.Accepted?
               <==> before + ItemNodes(items, n) <= MAX_NODES
                    && forall i :: 0 <= i < n ==> Fits(items[i], ItemPath(path, i), depth + 1, structured))
    ensures CheckItems(items, n, path, depth, structured, before).verdict.Accepted?
            ==> CheckItems(items, n, path, depth, structured, before).used == before + ItemNodes(items, n)
    decreases items, n
  {
    if n > 0 {
      CheckItemsMeans(items, n - 1, path, depth, structured, before);
      var c := CheckItems(items, n - 1, path, depth, structured, before);
      CheckMeans(items[n - 1], ItemPath(path, n - 1), depth + 1, structured, c.used);
    }
  }

  lemma {:induction false} CheckEntriesMeans(entries: seq<Entry>, n: nat, path: string, depth: nat, structured: bool, before: nat)
    requires n <= |entries|
    ensures before <= MAX_NODES ==>
              (CheckEntries(entries, n, path, depth, structured, before).verdict.Accepted?
               <==> before + EntryNodes(entries, n) <= MAX_NODES
                    && forall i :: 0 <= i < n ==>
                         KeyAllowed(entries[i], structured) && Fits(entries[i].value, EntryPath(path, entries[i].key.text), depth + 1, structured))
    ensures CheckEntries(entries, n, path, depth, structured, before).verdict.Accepted?
            ==> CheckEntries(entries, n, path, depth, structured, before).used == before + EntryNodes(entries, n)
    decreases entries, n
  {
    if n > 0 {
      CheckEntriesMeans(entries, n - 1, path, depth, structured, before);
      var c := CheckEntries(entries, n - 1, path, depth, structured, before);
      var e := entries[n - 1];
      if KeyAllowed(e, structured) {
        assert e.value < e;
        CheckMeans(e.value, EntryPath(path, e.key.text), depth + 1, structured, c.used);
      }
    }
  }

  // ---------------------------------------------------------------- the recursion that shares the counter

  class Budget {
    var used: nat

    constructor ()
      ensures used == 0
    {
      used := 0;
    }

    method Validate(v: Value, path: string, depth: nat, structured: bool) returns (r: Verdict)
      modifies this
      ensures Checked(r, used) == Check(v, path, depth, structured, old(used))
      decreases v
    {
      used := used + 1;
      if used > MAX_NODES { return Rejected(TotalSize); }
      if depth > MAX_DEPTH { return Rejected(NestingDepth); }
      ghost var start := used;
      match v
      case Null => return Accepted;
      case Boolean => return Accepted;
      case Integer => return Accepted;
      case Text(text, sensitive) =>
        if |text| > StringLimit(path, structured) { return Rejected(StringLength); }
        if structured && sensitive { return Rejected(Sensitive); }
        return Accepted;
      case Float(finite) =>
        if !finite { return Rejected(NonFinite); }
        return Accepted;
      case List(items) =>
        if |items| > MAX_ITEMS { return Rejected(ItemCount); }
        for i := 0 to |items|
          invariant CheckItems(items, i, path, depth, structured, start) == Checked(Accepted, used)
        {
          var item := Validate(items[i], ItemPath(path, i), depth + 1, structured);
          assert CheckItems(items, i + 1, path, depth, structured, start) == Checked(item, used);
          if item.Rejected? {
            RejectionStays(items, i + 1, |items|, path, depth, structured, start);
            return item;
          }
        }
        return Accepted;
      case Object(entries) =>
        if |entries| > MAX_ITEMS { return Rejected(ItemCount); }
        for i := 0 to |entries|
          invariant CheckEntries(entries, i, path, depth, structured, start) == Checked(Accepted, used)
        {
          var e := entries[i];
          var entry := KeyError(e, structured);
          if entry.Accepted? {
            entry := Validate(e.value, EntryPath(path, e.key.text), depth + 1, structured);
          }
          assert CheckEntries(entries, i + 1, path, depth, structured, start) == Checked(entry, used);
          if entry.Rejected? {
            EntryRejectionStays(entries, i + 1, |entries|, path, depth, structured, start);
            return entry;
          }
        }
        return Accepted;
      case NotJson => return Rejected(NonJsonValue);
    }
  }

  lemma {:induction false} RejectionStays(items: seq<Value>, m: nat, n: nat, path: string, depth: nat, structured: bool, before: nat)
    requires m <= n <= |items| && CheckItems(items, m, path, depth, structured, before).verdict.Rejected?
    ensures CheckItems(items, n, path, depth, structured, before) == CheckItems(items, m, path, depth, structured, before)
    decreases n
  {
    if m < n {
      RejectionStays(items, m, n - 1, path, depth, structured, before);
    }
  }

  lemma {:induction false} EntryRejectionStays(entries: seq<Entry>, m: nat, n: nat, path: string, depth: nat, structured: bool, before: nat)
    requires m <= n <= |entries| && CheckEntries(entries, m, path, depth, structured, before).verdict.Rejected?
    ensures CheckEntries(entries, n, path, depth, structured, before) == CheckEntries(entries, m, path, depth, structured, before)
    decreases n
  {
    if m < n {
      EntryRejectionStays(entries, m, n - 1, path, depth, structured, before);
    }
  }

  /** The check as it is called from outside, on a new counter. */
  method ValidatePayload(v: Value, path: string, structured: bool) returns (r: Verdict)
    ensures r.Accepted? <==> Nodes(v) <= MAX_NODES && Fits(v, path, 0, structured)
  {
    var budget := new Budget();
    r := budget.Validate(v, path, 0, structured);
    CheckMeans(v, path, 0, structured, 0);
  }
}
