/** The reader of the mail credentials file: lines of the form
    `export EMAIL_USER=...` and `export EMAIL_PASS=...`, the last of each
    kind winning. The file is given as its lines (each with its line end),
    or None when it does not exist. */
module Credentials {
  import opened Wrappers
  import Strings

  /** The two line prefixes. */
  const USER_PREFIX := "export EMAIL_USER="
  const PASS_PREFIX := "export EMAIL_PASS="

  datatype CredentialsError = FileNotFound | CredentialsMissing
  datatype Credentials = Credentials(user: string, password: string)

  predicate IsQuote(c: char) {
    c == '"'
  }

  /** Neither end of the value is a double quote. */
  predicate Unquoted(v: string) {
    v == [] || (!IsQuote(v[0]) && !IsQuote(v[|v| - 1]))
  }

  /** The two kinds of line the reader looks for. */
  datatype Kind = User | Password

  function Prefix(k: Kind): string {
    if k == User then USER_PREFIX else PASS_PREFIX
  }

  /** A line that starts with the prefix of its kind. */
  predicate Prefixed(line: string, k: Kind) {
    Strings.StartsWith(line, Prefix(k))
  }

  /** For a line with one of the prefixes, `split('=')[1]` is the text after
      the prefix up to the next '=': anything after a second '=' is lost. */
  lemma {:induction false} ValueAfterPrefix(line: string, k: Kind)
    requires Prefixed(line, k)
    ensures |Strings.Split(line, '=')| >= 2
    ensures Strings.Split(line, '=')[1] == Strings.Split(line[|Prefix(k)|..], '=')[0]
  {
    var prefix := Prefix(k);
    var key := prefix[..|prefix| - 1];
    var rest := line[|prefix|..];
    assert prefix == key + ['='];
    assert line == key + ['='] + rest;
    assert '=' !in key;
    Strings.SplitAfterPrefix(key, '=', rest);
  }

  /** `line.split('=')[1].strip().strip('"')` for a line with one of the prefixes. */
  function Value(line: string, k: Kind): (v: string)
    requires Prefixed(line, k)
    ensures Unquoted(v)
  {
    ValueAfterPrefix(line, k);
    Strings.Strip(Strings.StripSpace(Strings.Split(line, '=')[1]), IsQuote)
  }

  /** The value is a piece of the line after its prefix, and it holds no '=':
      whatever follows a second '=' on the line is dropped. */
  lemma {:induction false} ValueInsideLine(line: string, k: Kind) returns (i: nat, j: nat)
    requires Prefixed(line, k)
    ensures |Prefix(k)| <= i <= j <= |line| && Value(line, k) == line[i..j]
    ensures '=' !in Value(line, k)
  {
    ValueAfterPrefix(line, k);
    i, j := Strings.StrippedSecondPiece(line, |Prefix(k)|, '=', Strings.IsSpace, IsQuote);
  }

  /** The lines the loop has taken its values from so far: the latest line
      with the user prefix and the latest with the password prefix. */
  datatype Found = Found(userLine: Option<string>, passwordLine: Option<string>)

  /** The loop over the lines: a user line replaces the user, otherwise a
      password line replaces the password. Each value is read from its line
      as `Value` says, so remembering the line is enough. */
  function Scan(lines: seq<string>): (f: Found)
    ensures f.userLine.Some? ==> Prefixed(f.userLine.value, User)
    ensures f.passwordLine.Some? ==> Prefixed(f.passwordLine.value, Password)
    ensures (forall l :: l in lines ==> !Strings.StartsWith(l, USER_PREFIX)) ==> f.userLine.None?
    ensures (forall l :: l in lines ==> !Strings.StartsWith(l, PASS_PREFIX)) ==> f.passwordLine.None?
  {
    if lines == [] then Found(None, None)
    else
      var prev := Scan(lines[..|lines| - 1]);
      var line := lines[|lines| - 1];
      if Strings.StartsWith(line, USER_PREFIX) then prev.(userLine := Some(line))
      else if Strings.StartsWith(line, PASS_PREFIX) then prev.(passwordLine := Some(line))
      else prev
  }

  /** The value read from the remembered line, if any. */
  function ValueOf(line: Option<string>, k: Kind): (v: Option<string>)
    requires line.Some? ==> Prefixed(line.value, k)
    ensures v.Some? <==> line.Some?
    ensures v.Some? ==> Unquoted(v.value)
  {
    if line.None? then None else Some(Value(line.value, k))
  }

  /** Python's truthiness of the value: present and not empty. */
  predicate Present(v: Option<string>) {
    v.Some? && v.value != ""
  }

  /** The final test of `get_email_credentials`: both values must be there
      and non-empty. */
  function Check(user: Option<string>, password: Option<string>): (r: Result<Credentials, CredentialsError>)
    ensures r.Success? <==> Present(user) && Present(password)
    ensures r.Failure? ==> r.error == CredentialsMissing
    ensures r.Success? ==> r.value == Credentials(user.value, password.value)
  {
    if !Present(user) || !Present(password) then Failure(CredentialsMissing)
    else Success(Credentials(user.value, password.value))
  }

  /** `get_email_credentials`. */
  function GetEmailCredentials(file: Option<seq<string>>): (r: Result<Credentials, CredentialsError>)
    ensures file.None? ==> r == Failure(FileNotFound)
    ensures file.Some? ==> (r.Success? <==> Present(ValueOf(Scan(file.value).userLine, User))
                                            && Present(ValueOf(Scan(file.value).passwordLine, Password)))
    ensures r.Failure? && file.Some? ==> r.error == CredentialsMissing
    ensures r.Success? ==> r.value.user != "" && r.value.password != ""
    ensures r.Success? ==> Unquoted(r.value.user) && Unquoted(r.value.password)
  {
    if file.None? then Failure(FileNotFound)
    else
      var found := Scan(file.value);
      Check(ValueOf(found.userLine, User), ValueOf(found.passwordLine, Password))
  }

  /** The user comes from the last line with the user prefix. */
  lemma {:induction false} LastUserLineWins(lines: seq<string>, k: nat)
    requires k < |lines| && Strings.StartsWith(lines[k], USER_PREFIX)
    requires forall j :: k < j < |lines| ==> !Strings.StartsWith(lines[j], USER_PREFIX)
    ensures Scan(lines).userLine == Some(lines[k])
  {
    var n := |lines| - 1;
    if k < n {
      var p := lines[..n];
      forall j | k < j < |p|
        ensures !Strings.StartsWith(p[j], USER_PREFIX)
      {
        assert p[j] == lines[j];
      }
      assert p[k] == lines[k];
      LastUserLineWins(p, k);
    }
  }

  /** The password comes from the last line with the password prefix; no
      such line can be taken for a user line first. */
  lemma {:induction false} LastPasswordLineWins(lines: seq<string>, k: nat)
    requires k < |lines| && Strings.StartsWith(lines[k], PASS_PREFIX)
    requires forall j :: k < j < |lines| ==> !Strings.StartsWith(lines[j], PASS_PREFIX)
    ensures Scan(lines).passwordLine == Some(lines[k])
  {
    var n := |lines| - 1;
    PrefixesExclusive(lines[n]);
    if k < n {
      var p := lines[..n];
      forall j | k < j < |p|
        ensures !Strings.StartsWith(p[j], PASS_PREFIX)
      {
        assert p[j] == lines[j];
      }
      assert p[k] == lines[k];
      LastPasswordLineWins(p, k);
    }
  }

  /** No line starts with both prefixes, so no line sets both values. */
  lemma PrefixesExclusive(line: string)
    ensures !(Strings.StartsWith(line, USER_PREFIX) && Strings.StartsWith(line, PASS_PREFIX))
  {
    if Strings.StartsWith(line, USER_PREFIX) {
      assert line[13] == USER_PREFIX[13] == 'U';
    }
  }

  /** A line without either prefix changes nothing. */
  lemma OtherLinesIgnored(lines: seq<string>, line: string)
    requires !Strings.StartsWith(line, USER_PREFIX) && !Strings.StartsWith(line, PASS_PREFIX)
    ensures Scan(lines + [line]) == Scan(lines)
  {
    assert (lines + [line])[..|lines|] == lines;
  }

  /** Reading one more line: the scan of `lines[..n + 1]` in terms of the
      scan of `lines[..n]`. */
  lemma ScanOneMore(lines: seq<string>, n: nat)
    requires n < |lines|
    ensures var prev := Scan(lines[..n]);
            Scan(lines[..n + 1])
            == if Strings.StartsWith(lines[n], USER_PREFIX) then prev.(userLine := Some(lines[n]))
               else if Strings.StartsWith(lines[n], PASS_PREFIX) then prev.(passwordLine := Some(lines[n]))
               else prev
  {
    assert lines[..n + 1][..n] == lines[..n];
  }

  /** The statement that reads one value: the part after the first `=`,
      stripped of whitespace and then of quotes. */
  method ReadValue(line: string, k: Kind) returns (v: Option<string>)
    requires Prefixed(line, k)
    ensures v == ValueOf(Some(line), k)
  {
    ValueAfterPrefix(line, k);
    v := Some(Strings.Strip(Strings.StripSpace(Strings.Split(line, '=')[1]), IsQuote));
  }

  /** The loop as the source writes it, reading each value as its line comes,
      followed by the final check. */
  method ReadCredentials(file: Option<seq<string>>) returns (r: Result<Credentials, CredentialsError>)
    ensures r == GetEmailCredentials(file)
  {
    if file.None? {
      return Failure(FileNotFound);
    }
    var lines := file.value;
    var user: Option<string> := None;
    var password: Option<string> := None;
    ghost var found := Found(None, None);
    var n := 0;
    while n < |lines|
      invariant 0 <= n <= |lines|
      invariant found == Scan(lines[..n])
      invariant user == ValueOf(found.userLine, User)
      invariant password == ValueOf(found.passwordLine, Password)
    {
      var line := lines[n];
      ScanOneMore(lines, n);
      if Strings.StartsWith(line, USER_PREFIX) {
        user := ReadValue(line, User);
        found := found.(userLine := Some(line));
      } else if Strings.StartsWith(line, PASS_PREFIX) {
        password := ReadValue(line, Password);
        found := found.(passwordLine := Some(line));
      }
      n := n + 1;
    }
    assert lines[..n] == lines;
    assert GetEmailCredentials(file) == Check(user, password);
    if user.None? || user.value == "" || password.None? || password.value == "" {
      return Failure(CredentialsMissing);
    }
    r := Success(Credentials(user.value, password.value));
  }
}
