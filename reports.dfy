/**
 * What the error record of a rejected submission holds: one entry per
 * failing field, holding the message of that field's first failed check.
 * Connects the validation fold of `ContactSchema` with the loop of `ErrorMap`.
 */
module Reports {
  import opened JsStrings
  import opened ContactSchema
  import opened ErrorMap

  /** The keys of the entries that raise at least one issue. */
  function FailingKeys(entries: seq<Entry>, validEmail: string -> bool): set<string> {
    set i | 0 <= i < |entries| && EntryIssues(entries[i], validEmail) != [] :: entries[i].key
  }

  /** The failing keys of a non-empty list: the first entry's key if it fails, and those of the rest. */
  lemma FailingKeysUncons(entries: seq<Entry>, validEmail: string -> bool)
    requires entries != []
    ensures FailingKeys(entries, validEmail)
         == (if EntryIssues(entries[0], validEmail) == [] then {} else {entries[0].key}) + FailingKeys(entries[1..], validEmail)
  {
    var rest := entries[1..];
    forall k | k in FailingKeys(entries, validEmail)
      ensures k in (if EntryIssues(entries[0], validEmail) == [] then {} else {entries[0].key}) + FailingKeys(rest, validEmail)
    {
      var i :| 0 <= i < |entries| && EntryIssues(entries[i], validEmail) != [] && entries[i].key == k;
      if i > 0 { assert rest[i - 1] == entries[i]; }
    }
    forall k | k in FailingKeys(rest, validEmail) ensures k in FailingKeys(entries, validEmail) {
      var i :| 0 <= i < |rest| && EntryIssues(rest[i], validEmail) != [] && rest[i].key == k;
      assert entries[i + 1] == rest[i];
    }
  }

  /** Each issue of the object is filed under the key of an entry that raised it. */
  lemma {:induction false} ObjectKeys(entries: seq<Entry>, validEmail: string -> bool)
    requires forall i :: 0 <= i < |entries| ==> entries[i].key != ""
    ensures KeysOf(ObjectIssues(entries, validEmail)) == FailingKeys(entries, validEmail)
  {
    if entries != [] {
      var head := EntryIssues(entries[0], validEmail);
      var rest := entries[1..];
      assert forall i :: 0 <= i < |rest| ==> rest[i] == entries[i + 1];
      ObjectKeys(rest, validEmail);
      KeysOfConcat(head, ObjectIssues(rest, validEmail));
      KeysOfBlock(head, entries[0].key);
      FailingKeysUncons(entries, validEmail);
    }
  }

  /** No check of the schema has an empty message, so no issue is falsy. */
  lemma {:induction false} ObjectNoFalsy(entries: seq<Entry>, validEmail: string -> bool)
    requires forall i :: 0 <= i < |entries| ==> NoEmptyText(entries[i].checks)
    ensures NoFalsyMessages(ObjectIssues(entries, validEmail))
  {
    if entries != [] {
      var head := EntryIssues(entries[0], validEmail);
      var rest := entries[1..];
      assert forall i :: 0 <= i < |rest| ==> rest[i] == entries[i + 1];
      ObjectNoFalsy(rest, validEmail);
      var tail := ObjectIssues(rest, validEmail);
      var all := ObjectIssues(entries, validEmail);
      assert all == head + tail;
      forall i | 0 <= i < |all| ensures !IsFalsy(all[i].message) {
        if i >= |head| { assert all[i] == tail[i - |head|]; }
      }
    }
  }

  /** The issues of two runs of keys, one after the other. */
  lemma {:induction false} ObjectConcat(a: seq<Entry>, b: seq<Entry>, validEmail: string -> bool)
    ensures ObjectIssues(a + b, validEmail) == ObjectIssues(a, validEmail) + ObjectIssues(b, validEmail)
  {
    if a == [] {
      assert a + b == b;
    } else {
      var head := EntryIssues(a[0], validEmail);
      assert (a + b)[0] == a[0];
      assert (a + b)[1..] == a[1..] + b;
      calc {
        ObjectIssues(a + b, validEmail);
        head + ObjectIssues(a[1..] + b, validEmail);
        { ObjectConcat(a[1..], b, validEmail); }
        head + (ObjectIssues(a[1..], validEmail) + ObjectIssues(b, validEmail));
        (head + ObjectIssues(a[1..], validEmail)) + ObjectIssues(b, validEmail);
      }
    }
  }

  /** A single key raises its own issues. */
  lemma ObjectSingle(e: Entry, validEmail: string -> bool)
    ensures ObjectIssues([e], validEmail) == EntryIssues(e, validEmail)
  {
    assert [e][1..] == [];
  }

  /** A sequence is its part before `j`, its element at `j` and its part after. */
  lemma SplitAt<T>(s: seq<T>, j: int)
    requires 0 <= j < |s|
    ensures s == s[..j] + [s[j]] + s[j + 1..]
  {
  }

  /** The object's issues are those of the keys before `j`, then `j`'s, then those after. */
  lemma ObjectSplit(entries: seq<Entry>, j: int, validEmail: string -> bool)
    requires 0 <= j < |entries|
    ensures ObjectIssues(entries, validEmail)
            == ObjectIssues(entries[..j], validEmail) + EntryIssues(entries[j], validEmail) + ObjectIssues(entries[j + 1..], validEmail)
  {
    var pre, single, post := entries[..j], [entries[j]], entries[j + 1..];
    SplitAt(entries, j);
    ObjectConcat(pre + single, post, validEmail);
    ObjectConcat(pre, single, validEmail);
    ObjectSingle(entries[j], validEmail);
  }

  /**
   * When keys are distinct, the record's entry for key `j` is the message of
   * the first issue `j` raises, whatever the other keys raise.
   */
  lemma {:induction false} ObjectFirstWins(entries: seq<Entry>, j: int, validEmail: string -> bool)
    requires forall i :: 0 <= i < |entries| ==> entries[i].key != ""
    requires forall i :: 0 <= i < |entries| ==> NoEmptyText(entries[i].checks)
    requires 0 <= j < |entries|
    requires forall i :: 0 <= i < j ==> entries[i].key != entries[j].key
    requires EntryIssues(entries[j], validEmail) != []
    ensures entries[j].key in ErrorsOf(ObjectIssues(entries, validEmail))
    ensures ErrorsOf(ObjectIssues(entries, validEmail))[entries[j].key] == EntryIssues(entries[j], validEmail)[0].message
  {
    var k := entries[j].key;
    var pre := ObjectIssues(entries[..j], validEmail);
    var block := EntryIssues(entries[j], validEmail);
    var post := ObjectIssues(entries[j + 1..], validEmail);
    ObjectSplit(entries, j, validEmail);
    ObjectKeys(entries[..j], validEmail);
    assert k !in FailingKeys(entries[..j], validEmail);
    ObjectNoFalsy(entries, validEmail);
    assert block[0].path == [k];
    FirstOfBlock(pre, block, post, k);
  }

  /** Validation files an issue under exactly the fields that break their constraints. */
  lemma ValidateKeys(input: ParseInput, validEmail: string -> bool)
    ensures KeysOf(Validate(input, validEmail)) == FailingFields(input, validEmail)
    ensures NoFalsyMessages(Validate(input, validEmail))
  {
    var es := Entries(input);
    ObjectKeys(es, validEmail);
    ObjectNoFalsy(es, validEmail);
    forall i | 0 <= i < 6
      ensures EntryIssues(es[i], validEmail) == [] <==> FieldOk(input, es[i].key, validEmail)
    {
      EntriesEmptyIff(input, validEmail, i);
    }
    assert es[0].key == "firstName" && es[1].key == "lastName" && es[2].key == "email";
    assert es[3].key == "message" && es[4].key == "plan" && es[5].key == "hp";
    forall k ensures k in FailingKeys(es, validEmail) <==> k in FailingFields(input, validEmail) {
      if k in FailingFields(input, validEmail) {
        var i := if k == "firstName" then 0 else if k == "lastName" then 1 else if k == "email" then 2
                 else if k == "message" then 3 else if k == "plan" then 4 else 5;
        assert es[i].key == k;
      }
    }
  }

  /**
   * The message a failing field reports, read off the schema: a non-string
   * is an invalid-type issue; otherwise the custom `min` or `email` message
   * comes before zod's default `max` one.
   */
  function FirstFailure(input: ParseInput, key: string, validEmail: string -> bool): IssueMessage {
    var v := ValueOf(input, key);
    if !v.Text? then LibraryDefault(InvalidType)
    else if key == "firstName" then
      if Utf16Length(v.s) < 1 then Custom(FirstNameRequired) else LibraryDefault(TooBig(100))
    else if key == "lastName" then
      if Utf16Length(v.s) < 1 then Custom(LastNameRequired) else LibraryDefault(TooBig(100))
    else if key == "email" then
      if !validEmail(v.s) then Custom(EmailInvalid) else LibraryDefault(TooBig(200))
    else if key == "message" then
      if Utf16Length(v.s) < 10 then Custom(MessageTooShort) else LibraryDefault(TooBig(5000))
    else LibraryDefault(TooBig(100))
  }

  /** The first issue of a failing two-check string: invalid type, else the first failed check's. */
  lemma TwoChecksFirstIssue(key: string, v: FieldValue, c0: Check, c1: Check, validEmail: string -> bool)
    requires StringIssues(key, v, [c0, c1], validEmail) != []
    ensures StringIssues(key, v, [c0, c1], validEmail)[0].message
            == if !v.Text? then LibraryDefault(InvalidType)
               else if !Passes(c0, v.s, validEmail) then MessageFor(c0.text, CodeOf(c0))
               else MessageFor(c1.text, CodeOf(c1))
  {
    if v.Text? {
      TwoChecksIssues(key, c0, c1, v.s, validEmail);
    }
  }

  /** The first issue a failing schema key raises is that field's first failure. */
  lemma EntryFirstIssue(input: ParseInput, key: string, validEmail: string -> bool)
    requires key in FailingFields(input, validEmail)
    ensures EntryIssues(EntryFor(input, key), validEmail) != []
    ensures EntryIssues(EntryFor(input, key), validEmail)[0].message == FirstFailure(input, key, validEmail)
  {
    EntryEmptyIff(input, key, validEmail);
    if key == "firstName" {
      TwoChecksFirstIssue(key, input.firstName, FirstNameChecks[0], FirstNameChecks[1], validEmail);
    } else if key == "lastName" {
      TwoChecksFirstIssue(key, input.lastName, LastNameChecks[0], LastNameChecks[1], validEmail);
    } else if key == "email" {
      TwoChecksFirstIssue(key, input.email, EmailChecks[0], EmailChecks[1], validEmail);
    } else if key == "message" {
      TwoChecksFirstIssue(key, input.message, MessageChecks[0], MessageChecks[1], validEmail);
    } else {
      assert key == "plan";
      if input.plan.Text? {
        assert PlanChecks[1..] == [];
      }
    }
  }

  /**
   * For every field that breaks its constraints, the error record holds the
   * message of that field's first failed check.
   */
  lemma ValidateReportsFirstFailure(input: ParseInput, key: string, validEmail: string -> bool)
    requires key in FailingFields(input, validEmail)
    ensures key in ErrorsOf(Validate(input, validEmail))
    ensures ErrorsOf(Validate(input, validEmail))[key] == FirstFailure(input, key, validEmail)
  {
    var es := Entries(input);
    var j := if key == "firstName" then 0 else if key == "lastName" then 1 else if key == "email" then 2
             else if key == "message" then 3 else 4;
    assert es[j] == EntryFor(input, key);
    EntryFirstIssue(input, key, validEmail);
    ObjectFirstWins(es, j, validEmail);
  }

  /** The error record of a validation: one entry per failing field, each its first failure. */
  lemma ErrorRecord(input: ParseInput, validEmail: string -> bool)
    ensures ErrorsOf(Validate(input, validEmail)).Keys == FailingFields(input, validEmail)
    ensures forall k :: k in FailingFields(input, validEmail) ==>
      ErrorsOf(Validate(input, validEmail))[k] == FirstFailure(input, k, validEmail)
  {
    ValidateKeys(input, validEmail);
    ErrorsOfKeys(Validate(input, validEmail));
    forall k | k in FailingFields(input, validEmail)
      ensures ErrorsOf(Validate(input, validEmail))[k] == FirstFailure(input, k, validEmail)
    {
      ValidateReportsFirstFailure(input, k, validEmail);
    }
  }
}
