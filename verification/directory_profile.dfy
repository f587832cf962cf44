/** The canonical form of the descriptive profile, which is what its digest is taken of. */
module DirectoryProfile {
  import opened Text

  const MAXIMUM_LIST_ITEMS: nat := 16
  const MAXIMUM_ITEM_BYTES: nat := 128
  const MAXIMUM_SCALAR_BYTES: nat := 256
  const MAXIMUM_NOTE_BYTES: nat := 1024

  function Utf8Width(c: char): nat {
    if c < '\U{0080}' then 1 else if c < '\U{0800}' then 2 else if c < '\U{10000}' then 3 else 4
  }

  function ByteLength(s: string): nat {
    if s == "" then 0 else Utf8Width(s[0]) + ByteLength(s[1..])
  }

  predicate ContainsControl(s: string) {
    exists i | 0 <= i < |s| :: s[i] < '\U{0020}' || s[i] == '\U{007F}'
  }

  /** normalizeProfileText; None is ErrProfile. */
  function NormalizeText(value: string, maximum: nat): Option<string> {
    var text := Trim(value);
    if text != "" && (ByteLength(text) > maximum || ContainsControl(text)) then None else Some(text)
  }

  /** Bytes of a character in UTF-8, by code point. */
  lemma Utf8WidthExactly(c: char)
    ensures Utf8Width(c) == if c as int < 0x80 then 1 else if c as int < 0x800 then 2 else if c as int < 0x10000 then 3 else 4
  {
  }

  lemma {:induction false} ByteLengthOfConcat(a: string, b: string)
    ensures ByteLength(a + b) == ByteLength(a) + ByteLength(b)
    decreases |a|
  {
    if a == "" {
      assert a + b == b;
    } else {
      ByteLengthOfConcat(a[1..], b);
      assert (a + b)[1..] == a[1..] + b;
    }
  }

  /** Plain text has one byte a character, and no text has more than four. */
  lemma {:induction false} ByteLengthBounds(s: string)
    ensures |s| <= ByteLength(s) <= 4 * |s|
    ensures (forall i | 0 <= i < |s| :: s[i] as int < 0x80) ==> ByteLength(s) == |s|
    decreases |s|
  {
    if s != "" {
      ByteLengthBounds(s[1..]);
    }
  }

  lemma ControlExactly(s: string)
    ensures ContainsControl(s) <==> exists c | c in s :: c as int < 0x20 || c as int == 0x7F
  {
    if ContainsControl(s) {
      var i :| 0 <= i < |s| && (s[i] < '\U{0020}' || s[i] == '\U{007F}');
      assert s[i] in s && (s[i] as int < 0x20 || s[i] as int == 0x7F);
    }
  }

  /** An item a profile list accepts. */
  predicate GoodItem(value: string) {
    var text := NormalizeText(value, MAXIMUM_ITEM_BYTES);
    text.Some? && text.value != ""
  }

  predicate AcceptedList(values: seq<string>) {
    |values| <= MAXIMUM_LIST_ITEMS && forall v | v in values :: GoodItem(v)
  }

  /** Lists have at most 16 items, none of them blank, over 128 bytes or with control characters. */
  lemma ListAcceptedExactly(values: seq<string>)
    ensures AcceptedList(values) <==>
              |values| <= 16
              && forall v | v in values :: Trim(v) != "" && ByteLength(Trim(v)) <= 128 && !ContainsControl(Trim(v))
  {
  }

  ghost function TrimmedSet(values: seq<string>): set<string> {
    set v | v in values :: Trim(v)
  }

  /** Ordered insertion that drops a value already present. */
  function Insert(s: seq<string>, x: string): seq<string> {
    if s == [] then [x]
    else if x == s[0] then s
    else if Less(x, s[0]) then [x] + s
    else [s[0]] + Insert(s[1..], x)
  }

  lemma {:induction false} InsertElements(s: seq<string>, x: string)
    ensures Elements(Insert(s, x)) == Elements(s) + {x}
    decreases |s|
  {
    if s != [] {
      assert Elements(s) == {s[0]} + Elements(s[1..]);
      if x != s[0] && !Less(x, s[0]) {
        InsertElements(s[1..], x);
        var t := Insert(s[1..], x);
        assert Elements([s[0]] + t) == {s[0]} + Elements(t);
      } else if x != s[0] {
        assert Elements([x] + s) == {x} + Elements(s);
      }
    }
  }

  lemma {:induction false} InsertSorted(s: seq<string>, x: string)
    requires StrictlySorted(s)
    ensures StrictlySorted(Insert(s, x))
    decreases |s|
  {
    if s != [] {
      LessTotal(x, s[0]);
      if Less(x, s[0]) {
        forall j | 0 < j < |s| ensures Less(x, s[j]) {
          LessTransitive(x, s[0], s[j]);
        }
      } else if x != s[0] {
        InsertSorted(s[1..], x);
        InsertElements(s[1..], x);
        var t := Insert(s[1..], x);
        forall j | 0 <= j < |t| ensures Less(s[0], t[j]) {
          assert t[j] in Elements(t);
          if t[j] != x {
            assert t[j] in s[1..];
          }
        }
      }
    }
  }

  function SortedUniqueOf(values: seq<string>): seq<string> {
    if values == [] then [] else Insert(SortedUniqueOf(values[..|values| - 1]), Trim(values[|values| - 1]))
  }

  lemma {:induction false} SortedUniqueOfProperties(values: seq<string>)
    ensures StrictlySorted(SortedUniqueOf(values))
    ensures Elements(SortedUniqueOf(values)) == TrimmedSet(values)
    decreases |values|
  {
    if values != [] {
      var front, last := values[..|values| - 1], values[|values| - 1];
      SortedUniqueOfProperties(front);
      InsertSorted(SortedUniqueOf(front), Trim(last));
      InsertElements(SortedUniqueOf(front), Trim(last));
      assert values == front + [last];
      assert TrimmedSet(values) == TrimmedSet(front) + {Trim(last)};
    }
  }

  /** normalizeProfileList, on values. */
  function NormalizeList(values: seq<string>): Option<seq<string>> {
    if AcceptedList(values) then Some(SortedUniqueOf(values)) else None
  }

  /** The map's keys, taken in any order and sorted. */
  method SortKeys(unique: set<string>) returns (sorted: seq<string>)
    ensures StrictlySorted(sorted) && Elements(sorted) == unique
  {
    sorted := [];
    var rest := unique;
    while rest != {}
      invariant rest <= unique
      invariant StrictlySorted(sorted)
      invariant Elements(sorted) == unique - rest
      decreases |rest|
    {
      var x :| x in rest;
      InsertElements(sorted, x);
      InsertSorted(sorted, x);
      sorted := Insert(sorted, x);
      rest := rest - {x};
    }
  }

  /** The list normalizer: collect the trimmed items in a set, list the set in any order, sort. */
  method ComputeNormalList(values: seq<string>) returns (result: Option<seq<string>>)
    ensures result == NormalizeList(values)
    ensures result.Some? ==> StrictlySorted(result.value) && Elements(result.value) == TrimmedSet(values)
  {
    if |values| > MAXIMUM_LIST_ITEMS {
      return None;
    }
    var unique: set<string> := {};
    for i := 0 to |values|
      invariant forall j | 0 <= j < i :: GoodItem(values[j])
      invariant unique == TrimmedSet(values[..i])
    {
      if !GoodItem(values[i]) {
        return None;
      }
      assert values[..i + 1] == values[..i] + [values[i]];
      unique := unique + {Trim(values[i])};
    }
    assert values[..|values|] == values;
    var sorted := SortKeys(unique);
    SortedUniqueOfProperties(values);
    SortedUnique(sorted, SortedUniqueOf(values));
    result := Some(sorted);
  }

  /** Order, duplicates and padding do not show in the normal form. */
  lemma ListFormIsCanonical(a: seq<string>, b: seq<string>)
    requires AcceptedList(a) && AcceptedList(b)
    ensures NormalizeList(a) == NormalizeList(b) <==> TrimmedSet(a) == TrimmedSet(b)
  {
    SortedUniqueOfProperties(a);
    SortedUniqueOfProperties(b);
    if TrimmedSet(a) == TrimmedSet(b) {
      SortedUnique(SortedUniqueOf(a), SortedUniqueOf(b));
    }
  }

  /** Normalizing a normal form changes nothing. */
  lemma ListFormIsFixed(values: seq<string>)
    requires AcceptedList(values)
    ensures forall v | v in SortedUniqueOf(values) :: Trim(v) == v
    ensures SortedUniqueOf(SortedUniqueOf(values)) == SortedUniqueOf(values)
  {
    var form := SortedUniqueOf(values);
    SortedUniqueOfProperties(values);
    SortedUniqueOfProperties(form);
    forall v | v in form ensures Trim(v) == v {
      assert v in Elements(form);
      var raw :| raw in values && Trim(raw) == v;
      TrimIdempotent(raw);
    }
    assert TrimmedSet(form) == Elements(form) by {
      forall v | v in form ensures v in TrimmedSet(form) {
        assert Trim(v) in TrimmedSet(form);
      }
    }
    SortedUnique(SortedUniqueOf(form), form);
  }

  datatype RelayProfile = RelayProfile(
    participationMode: string,
    availability: string,
    relayType: string,
    languages: seq<string>,
    countries: seq<string>,
    regions: seq<string>,
    topics: seq<string>,
    contactFediverse: string,
    contactEmail: string,
    contactURL: string,
    participationURL: string,
    notes: string)

  /** The mail and link parsers, which see trimmed, non-empty text. */
  datatype Parsers = Parsers(mail: string -> Option<string>, link: string -> Option<string>)

  function Parsed(parse: string -> Option<string>, value: string): Option<string> {
    if Trim(value) == "" then Some("") else parse(Trim(value))
  }

  predicate ValidMode(mode: string) {
    mode == "" || mode == "open" || mode == "restricted" || mode == "closed"
  }

  function NormalizeProfile(parsers: Parsers, p: RelayProfile): Option<RelayProfile> {
    var mode := NormalizeText(p.participationMode, MAXIMUM_SCALAR_BYTES);
    var availability := NormalizeText(p.availability, MAXIMUM_SCALAR_BYTES);
    var relayType := NormalizeText(p.relayType, MAXIMUM_SCALAR_BYTES);
    var languages := NormalizeList(p.languages);
    var countries := NormalizeList(p.countries);
    var regions := NormalizeList(p.regions);
    var topics := NormalizeList(p.topics);
    var fediverse := NormalizeText(p.contactFediverse, MAXIMUM_SCALAR_BYTES);
    var mail := Parsed(parsers.mail, p.contactEmail);
    var contact := Parsed(parsers.link, p.contactURL);
    var participation := Parsed(parsers.link, p.participationURL);
    var notes := NormalizeText(p.notes, MAXIMUM_NOTE_BYTES);
    if mode.None? || !ValidMode(mode.value) || availability.None? || relayType.None?
       || languages.None? || countries.None? || regions.None? || topics.None? || fediverse.None?
       || mail.None? || contact.None? || participation.None? || notes.None?
    then None
    else Some(RelayProfile(mode.value, availability.value, relayType.value, languages.value, countries.value,
                           regions.value, topics.value, fediverse.value, mail.value, contact.value,
                           participation.value, notes.value))
  }

  predicate AcceptedText(value: string, maximum: nat) {
    Trim(value) == "" || (ByteLength(Trim(value)) <= maximum && !ContainsControl(Trim(value)))
  }

  /** Every field fits on its own. */
  predicate AcceptedProfile(parsers: Parsers, p: RelayProfile) {
    && Trim(p.participationMode) in {"", "open", "restricted", "closed"}
    && AcceptedText(p.participationMode, 256) && AcceptedText(p.availability, 256) && AcceptedText(p.relayType, 256)
    && AcceptedText(p.contactFediverse, 256) && AcceptedText(p.notes, 1024)
    && AcceptedList(p.languages) && AcceptedList(p.countries) && AcceptedList(p.regions) && AcceptedList(p.topics)
    && (Trim(p.contactEmail) != "" ==> parsers.mail(Trim(p.contactEmail)).Some?)
    && (Trim(p.contactURL) != "" ==> parsers.link(Trim(p.contactURL)).Some?)
    && (Trim(p.participationURL) != "" ==> parsers.link(Trim(p.participationURL)).Some?)
  }

  /** A list in normal form: the distinct trimmed items in order. */
  ghost predicate IsListForm(form: seq<string>, values: seq<string>) {
    StrictlySorted(form) && Elements(form) == TrimmedSet(values)
  }

  ghost predicate IsParsed(form: string, parse: string -> Option<string>, value: string) {
    if Trim(value) == "" then form == "" else parse(Trim(value)) == Some(form)
  }

  /** A profile is accepted if and only if every field fits, and its form is the form of each field in its own place. */
  lemma ProfileFormIsFieldwise(parsers: Parsers, p: RelayProfile)
    ensures NormalizeProfile(parsers, p).Some? <==> AcceptedProfile(parsers, p)
    ensures NormalizeProfile(parsers, p).Some? ==>
              var form := NormalizeProfile(parsers, p).value;
              && form.participationMode == Trim(p.participationMode) && form.availability == Trim(p.availability)
              && form.relayType == Trim(p.relayType) && form.contactFediverse == Trim(p.contactFediverse)
              && form.notes == Trim(p.notes)
              && IsListForm(form.languages, p.languages) && IsListForm(form.countries, p.countries)
              && IsListForm(form.regions, p.regions) && IsListForm(form.topics, p.topics)
              && IsParsed(form.contactEmail, parsers.mail, p.contactEmail)
              && IsParsed(form.contactURL, parsers.link, p.contactURL)
              && IsParsed(form.participationURL, parsers.link, p.participationURL)
  {
    SortedUniqueOfProperties(p.languages);
    SortedUniqueOfProperties(p.countries);
    SortedUniqueOfProperties(p.regions);
    SortedUniqueOfProperties(p.topics);
  }

  /** The same profile up to list order, duplicates and padding. */
  ghost predicate SameProfile(a: RelayProfile, b: RelayProfile) {
    && Trim(a.participationMode) == Trim(b.participationMode)
    && Trim(a.availability) == Trim(b.availability)
    && Trim(a.relayType) == Trim(b.relayType)
    && TrimmedSet(a.languages) == TrimmedSet(b.languages)
    && TrimmedSet(a.countries) == TrimmedSet(b.countries)
    && TrimmedSet(a.regions) == TrimmedSet(b.regions)
    && TrimmedSet(a.topics) == TrimmedSet(b.topics)
    && Trim(a.contactFediverse) == Trim(b.contactFediverse)
    && Trim(a.contactEmail) == Trim(b.contactEmail)
    && Trim(a.contactURL) == Trim(b.contactURL)
    && Trim(a.participationURL) == Trim(b.participationURL)
    && Trim(a.notes) == Trim(b.notes)
  }

  /** Two accepted spellings of one profile have one normal form, hence one digest. */
  lemma SameProfileSameForm(parsers: Parsers, a: RelayProfile, b: RelayProfile)
    requires NormalizeProfile(parsers, a).Some? && NormalizeProfile(parsers, b).Some?
    requires SameProfile(a, b)
    ensures NormalizeProfile(parsers, a) == NormalizeProfile(parsers, b)
  {
    ListFormIsCanonical(a.languages, b.languages);
    ListFormIsCanonical(a.countries, b.countries);
    ListFormIsCanonical(a.regions, b.regions);
    ListFormIsCanonical(a.topics, b.topics);
  }
}
