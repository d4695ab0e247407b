/**
 * The credential store: customer records read from pipe-delimited lines and
 * kept in a map keyed by email.
 */
module Customers {
  import opened Wrappers

  /** A registered customer; every field is kept exactly as it was read. */
  datatype Customer = Customer(firstname: string, lastname: string, email: string, password: string)

  /** Why loading or looking up customers fails. */
  datatype CustomerError =
    | WrongFieldCount(found: nat)   // unpacking a line that does not split into four fields
    | KeyError(key: string)         // looking up an email that is not stored

  /** The characters that byte-string strip() removes: space, \t, \n, \r, \v and \f. */
  predicate IsWhitespace(c: char)
  {
    c == ' ' || c == '\t' || c == '\n' || c == '\r' || c == '\U{0B}' || c == '\U{0C}'
  }

  /** True when `s` neither starts nor ends with whitespace. */
  predicate Trimmed(s: string)
  {
    s == [] || (!IsWhitespace(s[0]) && !IsWhitespace(s[|s| - 1]))
  }

  /** `s` without its leading whitespace. */
  function StripLeft(s: string): (r: string)
    ensures |r| <= |s| && r == s[|s| - |r|..]
    ensures forall i :: 0 <= i < |s| - |r| ==> IsWhitespace(s[i])
    ensures r == [] || !IsWhitespace(r[0])
  {
    if s != [] && IsWhitespace(s[0]) then StripLeft(s[1..]) else s
  }

  /** `s` without its trailing whitespace. */
  function StripRight(s: string): (r: string)
    ensures |r| <= |s| && r == s[..|r|]
    ensures forall i :: |r| <= i < |s| ==> IsWhitespace(s[i])
    ensures r == [] || !IsWhitespace(r[|r| - 1])
  {
    if s != [] && IsWhitespace(s[|s| - 1]) then StripRight(s[..|s| - 1]) else s
  }

  /** strip(): `s` without whitespace at either end. */
  function Strip(s: string): string
  {
    StripRight(StripLeft(s))
  }

  /**
   * Strip's result starts and ends with a non-whitespace character and is
   * the slice of `s` that only whitespace surrounds.
   */
  lemma StripSlice(s: string)
    ensures Trimmed(Strip(s))
    ensures exists i {:trigger s[i..]} :: 0 <= i <= |s| - |Strip(s)| && Strip(s) == s[i..i + |Strip(s)|]
              && (forall k :: 0 <= k < i ==> IsWhitespace(s[k]))
              && (forall k :: i + |Strip(s)| <= k < |s| ==> IsWhitespace(s[k]))
  {
    var left := StripLeft(s);
    var r := StripRight(left);
    var i := |s| - |left|;
    assert r != [] ==> r[0] == left[0];
    assert Trimmed(r);
    assert s[i..] == left;
    assert r == s[i..i + |r|] by {
      assert r == left[..|r|];
      assert |left[..|r|]| == |s[i..i + |r|]|;
      forall k | 0 <= k < |r| ensures left[..|r|][k] == s[i..i + |r|][k] {
        assert left[k] == s[i + k];
      }
    }
    assert forall k :: 0 <= k < i ==> IsWhitespace(s[k]);
    assert forall k :: i + |r| <= k < |s| ==> IsWhitespace(s[k]) by {
      forall k | i + |r| <= k < |s| ensures IsWhitespace(s[k]) {
        assert s[k] == left[k - i];
      }
    }
  }

  /** Strip leaves a string that has no whitespace at its ends as it is. */
  lemma StripTrimmed(s: string)
    requires Trimmed(s)
    ensures Strip(s) == s
  {
  }

  /** Leading whitespace is removed the same way whatever follows it. */
  lemma {:induction false} StripLeftAppend(s: string, c: char)
    ensures StripLeft(s + [c]) == if StripLeft(s) == [] then StripLeft([c]) else StripLeft(s) + [c]
  {
    if s != [] {
      assert (s + [c])[1..] == s[1..] + [c];
      if IsWhitespace(s[0]) {
        StripLeftAppend(s[1..], c);
      }
    }
  }

  /** Whitespace after the text, such as the newline a file line ends with, does not change Strip. */
  lemma StripTrailingWhitespace(s: string, c: char)
    requires IsWhitespace(c)
    ensures Strip(s + [c]) == Strip(s)
  {
    StripLeftAppend(s, c);
    var left := StripLeft(s);
    if left != [] {
      assert (left + [c])[..|left|] == left;
    }
  }

  /** Joins `fields` with `sep` between consecutive fields. */
  function Join(fields: seq<string>, sep: char): string
  {
    if fields == [] then []
    else if |fields| == 1 then fields[0]
    else fields[0] + [sep] + Join(fields[1..], sep)
  }

  /** split(sep): the pieces of `s` between occurrences of `sep`, in order. */
  function Split(s: string, sep: char): (fields: seq<string>)
    ensures |fields| >= 1
  {
    if s == [] then [[]]
    else
      var rest := Split(s[1..], sep);
      if s[0] == sep then [[]] + rest
      else [[s[0]] + rest[0]] + rest[1..]
  }

  /** Split yields one field more than there are separators in `s`. */
  lemma {:induction false} SplitCount(s: string, sep: char)
    ensures |Split(s, sep)| == multiset(s)[sep] + 1
  {
    if s != [] {
      SplitCount(s[1..], sep);
      assert s == [s[0]] + s[1..];
    }
  }

  /** No field of Split holds the separator. */
  lemma {:induction false} SplitFieldsFree(s: string, sep: char)
    ensures forall i :: 0 <= i < |Split(s, sep)| ==> sep !in Split(s, sep)[i]
  {
    if s != [] {
      SplitFieldsFree(s[1..], sep);
      var rest := Split(s[1..], sep);
      var fields := Split(s, sep);
      if s[0] == sep {
        assert forall i :: 1 <= i < |fields| ==> fields[i] == rest[i - 1];
      } else {
        assert forall i :: 1 <= i < |fields| ==> fields[i] == rest[i];
        assert fields[0] == [s[0]] + rest[0];
      }
    }
  }

  /** Joining the fields of Split with the separator gives the string back. */
  lemma {:induction false} JoinSplit(s: string, sep: char)
    ensures Join(Split(s, sep), sep) == s
  {
    if s != [] {
      var rest := Split(s[1..], sep);
      JoinSplit(s[1..], sep);
      assert s == [s[0]] + s[1..];
      var fields := Split(s, sep);
      if s[0] == sep {
        assert fields[1..] == rest;
        assert Join(fields, sep) == [] + [sep] + Join(rest, sep);
      } else if |rest| == 1 {
        assert fields == [[s[0]] + rest[0]];
      } else {
        assert fields[1..] == rest[1..];
        assert Join(fields, sep) == [s[0]] + rest[0] + [sep] + Join(rest[1..], sep);
        assert Join(rest, sep) == rest[0] + [sep] + Join(rest[1..], sep);
      }
    }
  }

  /** Splitting a piece that holds no separator gives that piece alone. */
  lemma {:induction false} SplitNoSeparator(f: string, sep: char)
    requires sep !in f
    ensures Split(f, sep) == [f]
  {
    if f != [] {
      SplitNoSeparator(f[1..], sep);
      assert [f[0]] + f[1..] == f;
    }
  }

  /** Splitting `f + [sep] + rest` cuts off `f` as the first field. */
  lemma {:induction false} SplitAtSeparator(f: string, sep: char, rest: string)
    requires sep !in f
    ensures Split(f + [sep] + rest, sep) == [f] + Split(rest, sep)
  {
    if f == [] {
      assert f + [sep] + rest == [sep] + rest;
      assert ([sep] + rest)[1..] == rest;
    } else {
      SplitAtSeparator(f[1..], sep, rest);
      var s := f + [sep] + rest;
      assert s[0] == f[0] && s[1..] == f[1..] + [sep] + rest;
      assert [f[0]] + f[1..] == f;
    }
  }

  /** The other round trip: fields without separators survive Join then Split. */
  lemma {:induction false} SplitJoin(fields: seq<string>, sep: char)
    requires |fields| >= 1
    requires forall i :: 0 <= i < |fields| ==> sep !in fields[i]
    ensures Split(Join(fields, sep), sep) == fields
  {
    if |fields| == 1 {
      SplitNoSeparator(fields[0], sep);
    } else {
      SplitJoin(fields[1..], sep);
      SplitAtSeparator(fields[0], sep, Join(fields[1..], sep));
      assert [fields[0]] + fields[1..] == fields;
    }
  }

  /** The four fields of a customer in the order a line lists them. */
  function Fields(c: Customer): seq<string>
  {
    [c.firstname, c.lastname, c.email, c.password]
  }

  /** A customer written as one pipe-delimited line. */
  function FormatLine(c: Customer): string
  {
    Join(Fields(c), '|')
  }

  /**
   * One line of the customer file: strip it, split it on '|' and unpack
   * exactly four fields into a Customer; any other number of fields fails.
   */
  function ParseLine(line: string): Result<Customer, CustomerError>
  {
    var fields := Split(Strip(line), '|');
    if |fields| == 4 then Success(Customer(fields[0], fields[1], fields[2], fields[3]))
    else Failure(WrongFieldCount(|fields|))
  }

  /**
   * A line parses exactly when its stripped text holds three separators; the
   * customer is then the one whose fields, none holding '|', joined by '|'
   * give the stripped line, and otherwise the error counts the fields.
   */
  lemma ParseLineFields(line: string)
    ensures ParseLine(line).Success? <==> multiset(Strip(line))['|'] == 3
    ensures ParseLine(line).Success? ==> Strip(line) == FormatLine(ParseLine(line).value)
    ensures ParseLine(line).Success? ==> forall i :: 0 <= i < 4 ==> '|' !in Fields(ParseLine(line).value)[i]
    ensures ParseLine(line).Failure? ==> ParseLine(line).error == WrongFieldCount(multiset(Strip(line))['|'] + 1)
  {
    var fields := Split(Strip(line), '|');
    SplitCount(Strip(line), '|');
    if |fields| == 4 {
      assert Fields(ParseLine(line).value) == fields;
      SplitFieldsFree(Strip(line), '|');
      JoinSplit(Strip(line), '|');
    }
  }

  /** A line read with its newline parses the same as the line without it. */
  lemma ParseLineIgnoresNewline(line: string)
    ensures ParseLine(line + "\n") == ParseLine(line)
  {
    StripTrailingWhitespace(line, '\n');
  }

  /** The line of a customer spelled out field by field. */
  lemma FormatLineSpelled(c: Customer)
    ensures FormatLine(c) == c.firstname + "|" + c.lastname + "|" + c.email + "|" + c.password
  {
    var f := Fields(c);
    assert f[1..][1..][1..] == [c.password];
    assert Join([c.email, c.password], '|') == c.email + "|" + c.password;
    assert f[1..][1..] == [c.email, c.password];
    assert Join(f[1..], '|') == c.lastname + "|" + (c.email + "|" + c.password);
    assert f[1..] == [c.lastname, c.email, c.password];
  }

  /** The line of a customer whose first name and password have no outer whitespace is already stripped. */
  lemma FormatLineTrimmed(c: Customer)
    requires c.firstname == [] || !IsWhitespace(c.firstname[0])
    requires c.password == [] || !IsWhitespace(c.password[|c.password| - 1])
    ensures Trimmed(FormatLine(c))
  {
    FormatLineSpelled(c);
    var line := FormatLine(c);
    var tail := "|" + c.lastname + "|" + c.email + "|";
    assert line == c.firstname + tail + c.password;
    assert |tail| >= 1 && tail[0] == '|' && tail[|tail| - 1] == '|';
  }

  /** A customer whose fields hold no '|' and whose line has no whitespace at its ends parses back to itself. */
  lemma ParseFormatLine(c: Customer)
    requires forall i :: 0 <= i < 4 ==> '|' !in Fields(c)[i]
    requires c.firstname == [] || !IsWhitespace(c.firstname[0])
    requires c.password == [] || !IsWhitespace(c.password[|c.password| - 1])
    ensures ParseLine(FormatLine(c)) == Success(c)
  {
    var line := FormatLine(c);
    FormatLineTrimmed(c);
    StripTrimmed(line);
    SplitJoin(Fields(c), '|');
    assert Split(Strip(line), '|') == Fields(c);
  }

  /** Every line parsed on its own, in file order. */
  function ParseAll(lines: seq<string>): (parsed: seq<Result<Customer, CustomerError>>)
  {
    seq(|lines|, i requires 0 <= i < |lines| => ParseLine(lines[i]))
  }

  /**
   * The customer map built from parsed lines in order, starting from an
   * empty map: each customer is stored under its email, replacing what an
   * earlier line stored there. The first line that did not parse makes the
   * whole load fail with that line's error.
   */
  function Store(parsed: seq<Result<Customer, CustomerError>>): (r: Result<map<string, Customer>, CustomerError>)
    ensures r.Success? <==> forall i :: 0 <= i < |parsed| ==> parsed[i].Success?
    ensures r.Success? ==> forall e :: e in r.value ==> r.value[e].email == e
  {
    if parsed == [] then Success(map[])
    else
      var prefix := parsed[..|parsed| - 1];
      assert forall i :: 0 <= i < |prefix| ==> prefix[i] == parsed[i];
      match Store(prefix)
      case Failure(e) => Failure(e)
      case Success(m) =>
        match parsed[|parsed| - 1]
        case Failure(e) => Failure(e)
        case Success(c) => Success(m[c.email := c])
  }

  /** The customer map that the lines of a customer file describe. */
  function LoadCustomers(lines: seq<string>): Result<map<string, Customer>, CustomerError>
  {
    Store(ParseAll(lines))
  }

  /** A failed load reports the error of the first line that does not parse. */
  lemma {:induction false} FirstBadLineFails(parsed: seq<Result<Customer, CustomerError>>)
    requires Store(parsed).Failure?
    ensures exists i :: 0 <= i < |parsed| && parsed[i] == Failure(Store(parsed).error)
              && forall j :: 0 <= j < i ==> parsed[j].Success?
  {
    var prefix := parsed[..|parsed| - 1];
    assert forall k :: 0 <= k < |prefix| ==> prefix[k] == parsed[k];
    if Store(prefix).Failure? {
      FirstBadLineFails(prefix);
      var i :| 0 <= i < |prefix| && prefix[i] == Failure(Store(prefix).error)
               && forall j :: 0 <= j < i ==> prefix[j].Success?;
      assert parsed[i] == Failure(Store(parsed).error);
    } else {
      assert parsed[|parsed| - 1] == Failure(Store(parsed).error);
    }
  }

  /**
   * After a successful load the stored emails are exactly the emails of the
   * lines, so the map has one entry per distinct email.
   */
  lemma {:induction false} StoredEmails(parsed: seq<Result<Customer, CustomerError>>)
    requires Store(parsed).Success?
    ensures forall e :: e in Store(parsed).value <==>
              exists i :: 0 <= i < |parsed| && parsed[i].value.email == e
  {
    if parsed != [] {
      var prefix := parsed[..|parsed| - 1];
      assert forall i :: 0 <= i < |prefix| ==> prefix[i] == parsed[i];
      StoredEmails(prefix);
    }
  }

  /**
   * After a successful load, the customer stored under a line's email is the
   * one parsed from that line unless a later line has the same email.
   */
  lemma {:induction false} LastLineWins(parsed: seq<Result<Customer, CustomerError>>, i: nat)
    requires Store(parsed).Success?
    requires i < |parsed|
    requires forall j :: i < j < |parsed| ==> parsed[j].value.email != parsed[i].value.email
    ensures parsed[i].value.email in Store(parsed).value
    ensures Store(parsed).value[parsed[i].value.email] == parsed[i].value
  {
    var prefix := parsed[..|parsed| - 1];
    assert forall k :: 0 <= k < |prefix| ==> prefix[k] == parsed[k];
    if i < |parsed| - 1 {
      LastLineWins(prefix, i);
    }
  }

  /** Once a line fails, no later line is looked at: the load fails with that line's error. */
  lemma {:induction false} StoreStopsAtFailure(parsed: seq<Result<Customer, CustomerError>>, i: nat)
    requires i < |parsed|
    requires Store(parsed[..i]).Success? && parsed[i].Failure?
    ensures Store(parsed) == Failure(parsed[i].error)
  {
    var prefix := parsed[..|parsed| - 1];
    if i < |parsed| - 1 {
      assert prefix[..i] == parsed[..i];
      StoreStopsAtFailure(prefix, i);
    } else {
      assert prefix == parsed[..i];
    }
  }

  /** A line that parses adds its customer under its email, overwriting any earlier one. */
  lemma StoreStep(parsed: seq<Result<Customer, CustomerError>>, i: nat)
    requires i < |parsed|
    requires Store(parsed[..i]).Success? && parsed[i].Success?
    ensures Store(parsed[..i + 1]) == Success(Store(parsed[..i]).value[parsed[i].value.email := parsed[i].value])
  {
    assert parsed[..i + 1][..i] == parsed[..i];
  }

  /**
   * read_customer_from_file over the file's lines: fills the map line by
   * line and stops at the first line that does not parse.
   */
  method ReadCustomers(lines: seq<string>) returns (r: Result<map<string, Customer>, CustomerError>)
    ensures r == LoadCustomers(lines)
  {
    ghost var parsed := ParseAll(lines);
    var customerInfo: map<string, Customer> := map[];
    for i := 0 to |lines|
      invariant Store(parsed[..i]) == Success(customerInfo)
    {
      var line := ParseLine(lines[i]);
      assert parsed[i] == line;
      if line.Failure? {
        StoreStopsAtFailure(parsed, i);
        return Failure(line.error);
      }
      var customer := line.value;
      StoreStep(parsed, i);
      customerInfo := customerInfo[customer.email := customer];
    }
    assert parsed[..|lines|] == parsed;
    r := Success(customerInfo);
  }

  /** get_by_email: the stored customer, or KeyError when the email is not a key. */
  function GetByEmail(customerInfo: map<string, Customer>, email: string): (r: Result<Customer, CustomerError>)
    ensures r.Success? <==> email in customerInfo
    ensures r.Success? ==> r.value == customerInfo[email]
    ensures r.Failure? ==> r.error == KeyError(email)
  {
    if email in customerInfo then Success(customerInfo[email]) else Failure(KeyError(email))
  }

  /** Looking up an email in a loaded map finds a customer with that very email. */
  lemma LookupOwnEmail(parsed: seq<Result<Customer, CustomerError>>, email: string)
    requires Store(parsed).Success?
    requires GetByEmail(Store(parsed).value, email).Success?
    ensures GetByEmail(Store(parsed).value, email).value.email == email
  {
  }
}
