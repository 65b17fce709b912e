/// The contact directory: `extract_location_info` and `fetch_contacts`.
module Contacts {

  import opened Wrappers
  import opened Paging

  /// A JSON field of a contact: missing, `null`, or a string.
  datatype Field = Absent | Null | Str(s: string)

  /// A non-empty `address` object of a contact (an absent, `null` or empty
  /// `address` is `None` in `RawContact`).
  datatype Address = Address(city: Field, state: Field)

  /// One item of the `contacts` endpoint. `priceListId` is the id of the
  /// `priceList` object, already turned into a string, or `None` when the
  /// object or its id is missing or `null`.
  datatype RawContact = RawContact(
    id: int,
    priceListId: Option<string>,
    name: Field,
    email: Field,
    address: Option<Address>,
    city: Field,
    state: Field)

  datatype Location = Location(city: string, state: string)

  /// A client as the report needs it. `name` and `email` are what
  /// `get(key, "")` returns: `""` for a missing key, `None` for a `null`.
  datatype Contact = Contact(priceId: Option<string>, name: Option<string>, email: Option<string>, city: string, state: string)

  // ---------------------------------------------------------------------------
  // `str.strip()`

  /// The characters Python's `str.isspace()` accepts.
  predicate IsSpace(c: char) {
    || c == ' ' || c == '\t' || c == '\n' || c == '\r' || c == '\U{B}' || c == '\U{C}'
    || ('\U{1C}' <= c <= '\U{1F}') || c == '\U{85}' || c == '\U{A0}' || c == '\U{1680}'
    || ('\U{2000}' <= c <= '\U{200A}') || c == '\U{2028}' || c == '\U{2029}' || c == '\U{202F}'
    || c == '\U{205F}' || c == '\U{3000}'
  }

  /// Drop leading white space: the result is the suffix of `s` that starts at
  /// the first non-space character.
  function TrimStart(s: string): (r: string)
    ensures |r| <= |s| && r == s[|s| - |r|..]
    ensures forall i :: 0 <= i < |s| - |r| ==> IsSpace(s[i])
    ensures r != [] ==> !IsSpace(r[0])
  {
    if s != [] && IsSpace(s[0]) then TrimStart(s[1..]) else s
  }

  /// Drop trailing white space: the result is the prefix of `s` that ends at
  /// the last non-space character.
  function TrimEnd(s: string): (r: string)
    ensures |r| <= |s| && r == s[..|r|]
    ensures forall i :: |r| <= i < |s| ==> IsSpace(s[i])
    ensures r != [] ==> !IsSpace(r[|r| - 1])
  {
    if s != [] && IsSpace(s[|s| - 1]) then TrimEnd(s[..|s| - 1]) else s
  }

  function Strip(s: string): string {
    TrimEnd(TrimStart(s))
  }

  /// `s` neither starts nor ends with white space.
  predicate Stripped(s: string) {
    s != [] ==> !IsSpace(s[0]) && !IsSpace(s[|s| - 1])
  }

  /// `r` is the slice `s[i..j]`, everything outside it is white space, and
  /// it neither starts nor ends with white space.
  ghost predicate TrimmedSlice(s: string, r: string, i: int, j: int) {
    && 0 <= i <= j <= |s| && r == s[i..j]
    && (forall k :: 0 <= k < i ==> IsSpace(s[k]))
    && (forall k :: j <= k < |s| ==> IsSpace(s[k]))
    && (r != [] ==> !IsSpace(r[0]) && !IsSpace(r[|r| - 1]))
  }

  /// `str.strip()` removes exactly the white space at both ends.
  lemma StripIsTrimmedSlice(s: string)
    ensures exists i, j :: TrimmedSlice(s, Strip(s), i, j)
  {
    var t := TrimStart(s);
    var r := TrimEnd(t);
    var i := |s| - |t|;
    var j := i + |r|;
    assert t == s[i..];
    assert r == s[i..j];
    forall k | j <= k < |s| ensures IsSpace(s[k]) {
      assert s[k] == t[k - i];
    }
    forall k | 0 <= k < i ensures IsSpace(s[k]) {
    }
    if r != [] {
      assert r[0] == t[0];
      assert !IsSpace(r[0]);
      assert !IsSpace(r[|r| - 1]);
    }
    assert r == Strip(s);
    assert TrimmedSlice(s, r, i, j);
  }

  /// A string without white space at its ends is left as it is.
  lemma StripKeepsTrimmed(s: string)
    requires s != [] ==> !IsSpace(s[0]) && !IsSpace(s[|s| - 1])
    ensures Strip(s) == s
  {
  }

  // ---------------------------------------------------------------------------
  // `extract_location_info`

  /// The Python value of `obj.get(key, "")`: a missing key gives `""`.
  function GetOrEmpty(f: Field): Option<string> {
    match f
    case Absent => Some("")
    case Null => None
    case Str(s) => Some(s)
  }

  /// Python truthiness of a `str | None`.
  predicate Truthy(v: Option<string>) {
    v.Some? && v.value != ""
  }

  /// One location field: the address value, replaced by the flat field when
  /// it is falsy and the flat key is present; stripped, `""` when falsy.
  function LocationField(fromAddress: Option<string>, flat: Field): string {
    var v := if !Truthy(fromAddress) && flat != Absent then GetOrEmpty(flat) else fromAddress;
    if Truthy(v) then Strip(v.value) else ""
  }

  function AddressCity(c: RawContact): Option<string> {
    if c.address.Some? then GetOrEmpty(c.address.value.city) else Some("")
  }

  function AddressState(c: RawContact): Option<string> {
    if c.address.Some? then GetOrEmpty(c.address.value.state) else Some("")
  }

  /// `extract_location_info(contact)`: a city and a state that are strings,
  /// never `None`, with no white space at either end.
  function ExtractLocationInfo(c: RawContact): (r: Location)
    ensures Stripped(r.city) && Stripped(r.state)
  {
    Location(LocationField(AddressCity(c), c.city), LocationField(AddressState(c), c.state))
  }

  /// Which value `extract_location_info` reports: a non-empty address value
  /// wins and is only stripped; otherwise the flat field is used, stripped,
  /// and a missing or null one gives "" (never `None`).
  lemma LocationPrecedence(c: RawContact)
    ensures var r := ExtractLocationInfo(c);
      && (c.address.Some? && c.address.value.city.Str? && c.address.value.city.s != "" ==>
            r.city == Strip(c.address.value.city.s))
      && (!(c.address.Some? && c.address.value.city.Str? && c.address.value.city.s != "") ==>
            r.city == (if c.city.Str? then Strip(c.city.s) else ""))
      && (c.address.Some? && c.address.value.state.Str? && c.address.value.state.s != "" ==>
            r.state == Strip(c.address.value.state.s))
      && (!(c.address.Some? && c.address.value.state.Str? && c.address.value.state.s != "") ==>
            r.state == (if c.state.Str? then Strip(c.state.s) else ""))
  {
    var a := if c.address.Some? then c.address.value else Address(Absent, Absent);
    PrecedenceOfField(c.address.Some?, a.city, c.city);
    PrecedenceOfField(c.address.Some?, a.state, c.state);
  }

  /// One location field: `fromAddress` is the field of the address object
  /// (consulted only when `hasAddress`), `flat` the top-level field.
  lemma PrecedenceOfField(hasAddress: bool, fromAddress: Field, flat: Field)
    ensures var r := LocationField(if hasAddress then GetOrEmpty(fromAddress) else Some(""), flat);
      && (hasAddress && fromAddress.Str? && fromAddress.s != "" ==> r == Strip(fromAddress.s))
      && (!(hasAddress && fromAddress.Str? && fromAddress.s != "") ==> r == (if flat.Str? then Strip(flat.s) else ""))
  {
    LocationFieldCases(if hasAddress then GetOrEmpty(fromAddress) else Some(""), flat);
  }

  lemma LocationFieldCases(fromAddress: Option<string>, flat: Field)
    ensures Truthy(fromAddress) ==> LocationField(fromAddress, flat) == Strip(fromAddress.value)
    ensures !Truthy(fromAddress) ==> LocationField(fromAddress, flat) == (if flat.Str? then Strip(flat.s) else "")
  {
    assert Strip("") == "";
  }

  /// A white-space-only city in the address is not empty to Python, so it
  /// hides the flat field and strips to "": the fallback is not taken.
  lemma BlankAddressCityHidesFlatCity(id: int, flat: string)
    ensures ExtractLocationInfo(RawContact(id, None, Absent, Absent, Some(Address(Str(" "), Absent)), Str(flat), Absent)).city == ""
  {
    var blank := " ";
    assert IsSpace(blank[0]) && blank[1..] == "";
    assert TrimStart(blank) == "";
    assert Strip(blank) == "";
    var c := RawContact(id, None, Absent, Absent, Some(Address(Str(blank), Absent)), Str(flat), Absent);
    assert AddressCity(c) == Some(blank);
    assert LocationField(Some(blank), Str(flat)) == Strip(blank);
  }

  /// The directory entry of one contact.
  function ToContact(c: RawContact): Contact {
    var loc := ExtractLocationInfo(c);
    Contact(c.priceListId, GetOrEmpty(c.name), GetOrEmpty(c.email), loc.city, loc.state)
  }

  /// Item `i` is the last listing of `id` among the first `n` items.
  ghost predicate LastListing(items: seq<RawContact>, n: nat, id: int, i: int)
    requires n <= |items|
  {
    0 <= i < n && items[i].id == id && forall j :: i < j < n ==> items[j].id != id
  }

  /// `contacts` indexes the first `n` items by id: every listed id has an
  /// entry, nothing else does, and the entry is built from its last listing.
  ghost predicate IndexesPrefix(contacts: map<int, Contact>, items: seq<RawContact>, n: nat)
    requires n <= |items|
  {
    && (forall id :: id in contacts <==> Listed(items, n, id))
    && (forall id :: id in contacts ==> BuiltFromLast(contacts, items, n, id))
  }

  /// `id` is listed among the first `n` items.
  ghost predicate Listed(items: seq<RawContact>, n: nat, id: int)
    requires n <= |items|
  {
    exists i :: 0 <= i < n && items[i].id == id
  }

  /// The entry of `id` is built from its last listing among the first `n` items.
  ghost predicate BuiltFromLast(contacts: map<int, Contact>, items: seq<RawContact>, n: nat, id: int)
    requires n <= |items| && id in contacts
  {
    exists i :: LastListing(items, n, id, i) && contacts[id] == ToContact(items[i])
  }

  /// `fetch_contacts()`: drain the `contacts` endpoint and index the contacts
  /// by id; a contact listed twice keeps its last listing.
  method FetchContacts(pages: seq<seq<RawContact>>, failAt: Option<nat>, testMax: Option<int>)
    returns (contacts: map<int, Contact>)
    ensures var items := Drain(pages, failAt, TestBudget(testMax), 0).items;
      IndexesPrefix(contacts, items, |items|)
  {
    var items, _ := Paginate(pages, failAt, testMax);
    contacts := IndexContacts(items);
  }

  /// The loop of `fetch_contacts` over the drained items.
  method IndexContacts(items: seq<RawContact>) returns (contacts: map<int, Contact>)
    ensures IndexesPrefix(contacts, items, |items|)
  {
    contacts := map[];
    var n := 0;
    while n < |items|
      invariant 0 <= n <= |items|
      invariant IndexesPrefix(contacts, items, n)
    {
      IndexStep(contacts, items, n);
      contacts := contacts[items[n].id := ToContact(items[n])];
      n := n + 1;
    }
  }

  /// Adding item `n` keeps the index exact: its id now points at it, every
  /// other entry keeps its last listing.
  lemma IndexStep(contacts: map<int, Contact>, items: seq<RawContact>, n: nat)
    requires n < |items|
    requires IndexesPrefix(contacts, items, n)
    ensures IndexesPrefix(contacts[items[n].id := ToContact(items[n])], items, n + 1)
  {
    var c := items[n];
    var next := contacts[c.id := ToContact(c)];
    forall id | id in next ensures BuiltFromLast(next, items, n + 1, id) {
      if id == c.id {
        assert LastListing(items, n + 1, id, n);
      } else {
        assert BuiltFromLast(contacts, items, n, id);
        var i :| LastListing(items, n, id, i) && contacts[id] == ToContact(items[i]);
        assert LastListing(items, n + 1, id, i);
      }
    }
    forall id ensures id in next <==> Listed(items, n + 1, id) {
      if id in next && id != c.id {
        assert Listed(items, n, id);
        var i :| 0 <= i < n && items[i].id == id;
        assert 0 <= i < n + 1 && items[i].id == id;
      }
      if Listed(items, n + 1, id) && id != c.id {
        var i :| 0 <= i < n + 1 && items[i].id == id;
        assert Listed(items, n, id);
      }
    }
  }
}
