/** The Syncer's state file: its hand-written parser and printer. */
module StateFile {
  import opened Store
  import opened Decimal
  import opened Text

  const U64_LIMIT: nat := 0x1_0000_0000_0000_0000

  datatype LocalState = LocalState(directory: nat, credential: nat)
  {
    predicate InRange() { directory < U64_LIMIT && credential < U64_LIMIT }
  }

  /** An optional plus sign, at least one digit, and no overflow. */
  function ParseU64(s: string): Option<nat> {
    var digits := if s != "" && s[0] == '+' then s[1..] else s;
    if digits == "" || !AllDigits(digits) || Value(digits) >= U64_LIMIT then None else Some(Value(digits))
  }

  // ----- Parsing -----

  function DirectoryField(): string { "applied_directory_revision" }
  function CredentialField(): string { "applied_credential_revision" }

  datatype Found = Found(directory: Option<nat>, credential: Option<nat>)

  /** One field of the object; None when it is malformed or unknown. */
  function ParseField(field: string, found: Found): Option<Found> {
    match SplitOnce(field, ':')
    case None => None
    case Some((key, value)) =>
      match ParseU64(Trim(value))
      case None => None
      case Some(number) =>
        var name := TrimWhere(Trim(key), IsQuote);
        if name == DirectoryField() then Some(found.(directory := Some(number)))
        else if name == CredentialField() then Some(found.(credential := Some(number)))
        else None
  }

  function ParseFields(fields: seq<string>, found: Found): Option<Found> {
    if fields == [] then Some(found)
    else
      var field := Trim(fields[0]);
      if field == "" then ParseFields(fields[1..], found)
      else
        match ParseField(field, found)
        case None => None
        case Some(more) => ParseFields(fields[1..], more)
  }

  predicate Braced(s: string) { |s| >= 2 && s[0] == '{' && s[|s| - 1] == '}' }

  function Complete(found: Found): Option<LocalState> {
    if found.directory.Some? && found.credential.Some?
    then Some(LocalState(found.directory.value, found.credential.value))
    else None
  }

  function Parse(contents: string): Option<LocalState> {
    var s := Trim(contents);
    if !Braced(s) then None
    else
      match ParseFields(Split(s[1..|s| - 1], ','), Found(None, None))
      case None => None
      case Some(found) => Complete(found)
  }

  lemma ParseU64Range(s: string)
    ensures ParseU64(s).Some? ==> ParseU64(s).value < U64_LIMIT
  {
  }

  lemma ParseFieldsEnd(found: Found)
    ensures ParseFields([], found) == Some(found)
  {
  }

  lemma ParseFieldsStep(fields: seq<string>, i: nat, found: Found)
    requires i < |fields|
    ensures ParseFields(fields[i..], found) ==
            var field := Trim(fields[i]);
            if field == "" then ParseFields(fields[i + 1..], found)
            else match ParseField(field, found) case None => None case Some(more) => ParseFields(fields[i + 1..], more)
  {
    hide Trim, ParseField;
    assert fields[i..][1..] == fields[i + 1..];
  }

  predicate InRange(found: Option<nat>) { found.Some? ==> found.value < U64_LIMIT }

  /** One field: split at the colon, read the number, and set the variable that the name says. */
  method ParseOne(field: string, directory: Option<nat>, credential: Option<nat>) returns (r: Option<Found>)
    requires InRange(directory) && InRange(credential)
    ensures r == ParseField(field, Found(directory, credential))
    ensures r.Some? ==> InRange(r.value.directory) && InRange(r.value.credential)
  {
    hide Trim, SplitOnce, TrimWhere, ParseU64, DirectoryField, CredentialField;
    var parts := SplitOnce(field, ':');
    if parts.None? {
      return None;
    }
    var name := TrimWhere(Trim(parts.value.0), IsQuote);
    var number := ParseU64(Trim(parts.value.1));
    if number.None? {
      return None;
    }
    ParseU64Range(Trim(parts.value.1));
    if name == DirectoryField() {
      r := Some(Found(number, credential));
    } else if name == CredentialField() {
      r := Some(Found(directory, number));
    } else {
      r := None;
    }
  }

  method ParseLocalRevisionState(contents: string) returns (r: Option<LocalState>)
    ensures r == Parse(contents)
    ensures r.Some? ==> r.value.InRange()
  {
    hide Split, Trim, ParseField, ParseFields;
    var s := Trim(contents);
    if !Braced(s) {
      return None;
    }
    var fields := Split(s[1..|s| - 1], ',');
    var directory: Option<nat>, credential: Option<nat> := None, None;
    assert fields[0..] == fields;
    for i := 0 to |fields|
      invariant ParseFields(fields, Found(None, None)) == ParseFields(fields[i..], Found(directory, credential))
      invariant InRange(directory) && InRange(credential)
    {
      ParseFieldsStep(fields, i, Found(directory, credential));
      var field := Trim(fields[i]);
      if field != "" {
        var found := ParseOne(field, directory, credential);
        if found.None? {
          return None;
        }
        directory, credential := found.value.directory, found.value.credential;
      }
    }
    ParseFieldsEnd(Found(directory, credential));
    assert fields[|fields|..] == [];
    r := Complete(Found(directory, credential));
  }

  // ----- Printing -----

  function FieldText(name: string, value: nat): string {
    "\"" + name + "\":" + Show(value)
  }

  function Format(state: LocalState): string {
    "{" + FieldText(DirectoryField(), state.directory) + "," + FieldText(CredentialField(), state.credential) + "}"
  }

  /** The text that older and newer versions of the program read and write. */
  lemma FormatText(state: LocalState)
    ensures Format(state) ==
            "{" + ("\"" + "applied_directory_revision" + "\":" + Show(state.directory)) + ","
            + ("\"" + "applied_credential_revision" + "\":" + Show(state.credential)) + "}"
  {
    assert DirectoryField() == "applied_directory_revision" && CredentialField() == "applied_credential_revision";
    hide Show, DirectoryField, CredentialField;
  }

  /** Numerals, with or without a plus sign, up to the last 64-bit number. */
  lemma ParseU64Exactly(s: string, n: nat)
    ensures ParseU64(s) == Some(n) <==>
            exists digits :: (s == digits || s == "+" + digits) && digits != "" && AllDigits(digits)
                             && Value(digits) == n && n < 0x1_0000_0000_0000_0000
  {
    var digits := if s != "" && s[0] == '+' then s[1..] else s;
    if ParseU64(s) == Some(n) {
      assert s == digits || s == "+" + digits;
    }
    if other :| (s == other || s == "+" + other) && other != "" && AllDigits(other) && Value(other) == n
                && n < 0x1_0000_0000_0000_0000 {
      assert IsDigit(other[0]);
      assert other == digits;
    }
  }

  // ----- What the parser accepts -----

  /** The value that a field gives to a name; None if it is another name's, or no field at all. */
  function FieldValue(field: string, name: string): Option<nat> {
    match SplitOnce(Trim(field), ':')
    case None => None
    case Some((key, value)) => if TrimWhere(Trim(key), IsQuote) == name then ParseU64(Trim(value)) else None
  }

  /** The name's last value among the fields. */
  ghost predicate LastValue(fields: seq<string>, name: string, n: nat) {
    exists i ::
      && 0 <= i < |fields| && FieldValue(fields[i], name) == Some(n)
      && (forall j | i < j < |fields| :: FieldValue(fields[j], name) == None)
  }

  predicate Readable(field: string) {
    || Trim(field) == ""
    || FieldValue(field, "applied_directory_revision").Some?
    || FieldValue(field, "applied_credential_revision").Some?
  }

  /** `found` holds the last value of a name, or nothing if no field gives it one. */
  ghost predicate Collected(fields: seq<string>, name: string, found: Option<nat>) {
    match found
    case Some(n) => LastValue(fields, name, n)
    case None => forall j | 0 <= j < |fields| :: FieldValue(fields[j], name) == None
  }

  lemma CollectedGrows(fields: seq<string>, field: string, name: string, found: Option<nat>)
    requires Collected(fields, name, found)
    ensures Collected(fields + [field], name, if FieldValue(field, name).Some? then FieldValue(field, name) else found)
  {
    hide FieldValue;
    var all := fields + [field];
    if FieldValue(field, name).Some? {
      assert all[|fields|] == field;
    } else if found.Some? {
      var i :| && 0 <= i < |fields| && FieldValue(fields[i], name) == found
               && (forall j | i < j < |fields| :: FieldValue(fields[j], name) == None);
      assert all[i] == fields[i];
      assert forall j | i < j < |all| :: j < |fields| ==> all[j] == fields[j];
    }
  }

  function Step(found: Found, field: string): Found {
    var d, c := FieldValue(field, "applied_directory_revision"), FieldValue(field, "applied_credential_revision");
    Found(if d.Some? then d else found.directory, if c.Some? then c else found.credential)
  }

  /** One field moves what was found, or stops the parser. */
  lemma FieldStep(field: string, found: Found)
    requires Trim(field) != ""
    ensures ParseField(Trim(field), found) == if Readable(field) then Some(Step(found, field)) else None
  {
    FieldNames();
    TrimTwice(field);
    hide Trim, TrimWhere, SplitOnce, ParseU64, IsName;
  }

  lemma BlankStep(field: string, found: Found)
    requires Trim(field) == ""
    ensures Readable(field) && Step(found, field) == found
  {
    hide Trim, TrimWhere, ParseU64;
  }

  /** One step of the loop over the fields. */
  lemma ParseFieldsFirst(fields: seq<string>, found: Found)
    requires fields != []
    ensures ParseFields(fields, found) ==
            if Readable(fields[0]) then ParseFields(fields[1..], Step(found, fields[0])) else None
  {
    if Trim(fields[0]) == "" { BlankStep(fields[0], found); } else { FieldStep(fields[0], found); }
    hide Readable, Trim, ParseField, Step;
  }

  /** Both names' last values, or their absence, among the fields. */
  ghost predicate BothCollected(fields: seq<string>, found: Found) {
    && Collected(fields, "applied_directory_revision", found.directory)
    && Collected(fields, "applied_credential_revision", found.credential)
  }

  lemma BothCollectedGrow(fields: seq<string>, field: string, found: Found)
    requires BothCollected(fields, found)
    ensures BothCollected(fields + [field], Step(found, field))
  {
    hide Collected, FieldValue;
    CollectedGrows(fields, field, "applied_directory_revision", found.directory);
    CollectedGrows(fields, field, "applied_credential_revision", found.credential);
  }

  lemma {:induction false} ParseFieldsExactly(before: seq<string>, fields: seq<string>, found: Found)
    requires BothCollected(before, found)
    ensures ParseFields(fields, found).Some? <==> forall i | 0 <= i < |fields| :: Readable(fields[i])
    ensures ParseFields(fields, found).Some? ==> BothCollected(before + fields, ParseFields(fields, found).value)
    decreases |fields|
  {
    hide Readable, BothCollected, ParseFields, Step;
    if fields == [] {
      ParseFieldsEnd(found);
      assert before + fields == before;
    } else {
      ParseFieldsFirst(fields, found);
      BothCollectedGrow(before, fields[0], found);
      ParseFieldsExactly(before + [fields[0]], fields[1..], Step(found, fields[0]));
      assert before + fields == (before + [fields[0]]) + fields[1..];
      assert forall i | 0 < i < |fields| :: fields[1..][i - 1] == fields[i];
    }
  }

  /**
   A text is accepted exactly when, in braces, every comma-separated piece is blank or gives a 64-bit
   number to one of the two names, and both names get one; of several the last counts.
   */
  lemma ParseExactly(contents: string, state: LocalState)
    ensures Parse(contents) == Some(state) <==>
            var s := Trim(contents);
            && Braced(s)
            && var fields := Split(s[1..|s| - 1], ',');
            && (forall i | 0 <= i < |fields| :: Readable(fields[i]))
            && LastValue(fields, "applied_directory_revision", state.directory)
            && LastValue(fields, "applied_credential_revision", state.credential)
  {
    hide Trim, Split, Readable, FieldValue;
    var s := Trim(contents);
    if Braced(s) {
      var fields := Split(s[1..|s| - 1], ',');
      ParseFieldsExactly([], fields, Found(None, None));
      assert [] + fields == fields;
      hide ParseFields;
      LastValueUnique(fields, "applied_directory_revision");
      LastValueUnique(fields, "applied_credential_revision");
    }
  }

  lemma LastValueUnique(fields: seq<string>, name: string)
    ensures forall n, m | LastValue(fields, name, n) && LastValue(fields, name, m) :: n == m
    ensures forall n | LastValue(fields, name, n) ::
              exists j :: 0 <= j < |fields| && FieldValue(fields[j], name) != None
  {
    hide FieldValue;
  }

  lemma TrimTwice(s: string)
    ensures Trim(Trim(s)) == Trim(s)
  {
    DropFirstEnds(s, IsSpace);
    var t := DropFirst(s, IsSpace);
    DropLastEnds(t, IsSpace);
    if Trim(s) != "" {
      TrimNothing(Trim(s), IsSpace);
    }
  }

  // ----- Round trip -----

  lemma ShowFacts(n: nat)
    ensures AllDigits(Show(n)) && Show(n) != "" && ',' !in Show(n)
    ensures Trim(Show(n)) == Show(n)
    ensures n < U64_LIMIT ==> ParseU64(Show(n)) == Some(n)
  {
    ShowIsNumeral(n);
    TrimNothing(Show(n), IsSpace);
    assert IsDigit(Show(n)[0]);
  }

  predicate IsName(s: string) {
    s != "" && forall i | 0 <= i < |s| :: s[i] == '_' || 'a' <= s[i] <= 'z'
  }

  lemma FieldNames()
    ensures IsName(DirectoryField()) && IsName(CredentialField()) && DirectoryField() != CredentialField()
  {
    assert DirectoryField()[8] == 'd' && CredentialField()[8] == 'c';
  }

  lemma QuotedName(name: string)
    requires IsName(name)
    ensures var key := "\"" + name + "\"";
            ',' !in key && ':' !in key && Trim(key) == key && TrimWhere(key, IsQuote) == name
  {
    var key := "\"" + name + "\"";
    TrimNothing(key, IsSpace);
    var rest := name + "\"";
    assert key[1..] == rest && rest[0] == name[0];
    assert DropFirst(key, IsQuote) == rest;
    assert rest[..|name|] == name;
    assert DropLast(rest, IsQuote) == DropLast(name, IsQuote) == name;
  }

  lemma FieldTrims(name: string, value: nat)
    requires IsName(name)
    ensures var text := FieldText(name, value); ',' !in text && text != "" && Trim(text) == text
  {
    ShowFacts(value);
    QuotedName(name);
    var key, text := "\"" + name + "\"", FieldText(name, value);
    hide TrimWhere, Show, IsName;
    assert text == key + [':'] + Show(value);
    assert text[|text| - 1] == Show(value)[|Show(value)| - 1];
    TrimNothing(text, IsSpace);
  }

  /** A field as it is printed splits back into its name and value. */
  lemma FieldSplits(name: string, value: nat)
    requires IsName(name)
    ensures SplitOnce(FieldText(name, value), ':') == Some(("\"" + name + "\"", Show(value)))
  {
    QuotedName(name);
    var key := "\"" + name + "\"";
    hide Trim, TrimWhere, Show, IsName, SplitOnce;
    assert FieldText(name, value) == key + [':'] + Show(value);
    SplitAtFirst(key, ':', Show(value));
  }

  lemma FieldParses(name: string, value: nat, found: Found)
    requires name == DirectoryField() || name == CredentialField()
    requires value < U64_LIMIT
    ensures ParseField(FieldText(name, value), found) ==
            Some(if name == DirectoryField() then found.(directory := Some(value))
              else found.(credential := Some(value)))
  {
    FieldNames();
    FieldSplits(name, value);
    QuotedName(name);
    ShowFacts(value);
    hide Trim, TrimWhere, FieldText, Show, SplitOnce, ParseU64, IsName, DirectoryField, CredentialField;
  }

  lemma TwoFieldsParse(a: string, b: string, f0: Found, f1: Found, f2: Found)
    requires a != "" && b != "" && Trim(a) == a && Trim(b) == b
    requires ParseField(a, f0) == Some(f1) && ParseField(b, f1) == Some(f2)
    ensures ParseFields([a, b], f0) == Some(f2)
  {
    hide Trim, ParseField;
    assert [a, b][1..] == [b] && [b][1..] == [];
    assert ParseFields([b], f1) == Some(f2);
  }

  lemma BodySplits(a: string, b: string)
    requires ',' !in a && ',' !in b
    ensures Split(a + [','] + b, ',') == [a, b]
  {
    SplitAtFirst(a, ',', b);
    SplitWithout(b, ',');
  }

  lemma Unbraced(a: string, b: string)
    ensures var text := "{" + a + "," + b + "}";
            Trim(text) == text && Braced(text) && text[1..|text| - 1] == a + [','] + b
  {
    var text := "{" + a + "," + b + "}";
    TrimNothing(text, IsSpace);
    hide TrimWhere;
    assert text == "{" + (a + [','] + b) + "}";
  }

  lemma ObjectParses(a: string, b: string, f0: Found, f1: Found, f2: Found)
    requires f0 == Found(None, None) && ',' !in a && ',' !in b
    requires a != "" && b != "" && Trim(a) == a && Trim(b) == b
    requires ParseField(a, f0) == Some(f1) && ParseField(b, f1) == Some(f2)
    ensures Parse("{" + a + "," + b + "}") == Complete(f2)
  {
    hide ParseField, Trim, ParseFields, Split, Complete, Braced;
    TwoFieldsParse(a, b, f0, f1, f2);
    BodySplits(a, b);
    Unbraced(a, b);
  }

  /** Printing any pair of 64-bit revisions and parsing the text returns the pair. */
  lemma ParseFormat(state: LocalState)
    requires state.InRange()
    ensures Parse(Format(state)) == Some(state)
  {
    hide FieldText, ParseField, Trim, IsName, Parse, SplitOnce, Show, DirectoryField, CredentialField;
    var a, b := FieldText(DirectoryField(), state.directory), FieldText(CredentialField(), state.credential);
    var f0 := Found(None, None);
    var f1 := f0.(directory := Some(state.directory));
    var f2 := f1.(credential := Some(state.credential));
    FieldNames();
    FieldTrims(DirectoryField(), state.directory);
    FieldTrims(CredentialField(), state.credential);
    FieldParses(DirectoryField(), state.directory, f0);
    FieldParses(CredentialField(), state.credential, f1);
    ObjectParses(a, b, f0, f1, f2);
  }

  // ----- The file -----

  datatype Load = Load(state: LocalState, rebuildDirectory: bool, rebuildCredentials: bool)

  /** The state file; saving writes a temporary file and renames it, so it is replaced as a whole. */
  class FileLocalStateStore {
    var contents: Option<string>

    /** After a completed save the file parses back, so the next load returns the state and asks for no rebuild. */
    method Save(state: LocalState)
      requires state.InRange()
      modifies this
      ensures contents == Some(Format(state)) && Parse(contents.value) == Some(state)
    {
      contents := Some(Format(state));
      ParseFormat(state);
    }

    /** A missing file starts from zero; an unparsable one asks for a rebuild of both channels. */
    method LoadForSync() returns (load: Load)
      ensures contents.None? ==> load == Load(LocalState(0, 0), false, false)
      ensures contents.Some? && Parse(contents.value).Some? ==> load == Load(Parse(contents.value).value, false, false)
      ensures contents.Some? && Parse(contents.value).None? ==> load == Load(LocalState(0, 0), true, true)
      ensures load.rebuildDirectory || load.rebuildCredentials ==> load.state == LocalState(0, 0)
    {
      match contents
      case None => load := Load(LocalState(0, 0), false, false);
      case Some(text) =>
        var parsed := ParseLocalRevisionState(text);
        load := if parsed.Some? then Load(parsed.value, false, false) else Load(LocalState(0, 0), true, true);
    }
  }
}
