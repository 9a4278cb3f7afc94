/**
 * The two-line credential file shared by the Teamcenter and Polarion
 * authentication managers: the username, a newline, the password.
 */
module CredentialFile {
  import opened Wrappers
  import opened Text

  datatype Credentials = Credentials(username: string, password: string)

  /** The two exceptions `get_credentials` can raise. */
  datatype AuthError = FileNotFound | InvalidCredentials

  /** What `set_credentials` writes to the file. */
  function Encode(c: Credentials): string {
    c.username + "\n" + c.password
  }

  /**
   * `get_credentials` on the file's contents (None when the file does not
   * exist): read in text mode, strip the whole text, split on "\n", and
   * accept exactly two parts.
   */
  function Decode(stored: Option<string>): (r: Result<Credentials, AuthError>)
    ensures stored.None? <==> r == Failure(FileNotFound)
    ensures stored.Some? ==>
      (r.Success? <==> Count(Strip(UniversalNewlines(stored.value)), '\n') == 1)
    ensures r.Success? ==>
      '\n' !in r.value.username && '\n' !in r.value.password
      && Encode(r.value) == Strip(UniversalNewlines(stored.value))
  {
    if stored.None? then Failure(FileNotFound)
    else
      var text := Strip(UniversalNewlines(stored.value));
      var parts := Split(text, '\n');
      SplitLength(text, '\n');
      if |parts| != 2 then Failure(InvalidCredentials)
      else
        SplitPair(text, '\n');
        Success(Credentials(parts[0], parts[1]))
  }

  /**
   * Reading back what was written gives the same pair, provided neither field
   * holds a line break and the written text has no whitespace at either end.
   */
  lemma RoundTrip(c: Credentials)
    requires c.username != "" && c.password != ""
    requires '\n' !in c.username && '\n' !in c.password
    requires '\r' !in c.username && '\r' !in c.password
    requires !IsSpace(c.username[0]) && !IsSpace(c.password[|c.password| - 1])
    ensures Decode(Some(Encode(c))) == Success(c)
  {
    var s := Encode(c);
    assert '\r' !in s;
    assert s[0] == c.username[0] && s[|s| - 1] == c.password[|c.password| - 1];
    StripNoEdges(s);
    SplitTwo(c.username, c.password, '\n');
  }

  /**
   * A username made only of whitespace is stripped away together with the
   * newline that follows it, so a single part is left and the file is rejected.
   */
  lemma BlankUsernameRejected(c: Credentials)
    requires IsBlank(c.username) && '\n' !in c.password && '\r' !in c.username + c.password
    ensures Decode(Some(Encode(c))) == Failure(InvalidCredentials)
  {
    var s := Encode(c);
    assert '\r' !in s;
    BlankUsernameStripped(c);
    CountAbsent(Strip(s), '\n');
  }

  /** Stripping the encoded pair removes the blank username and its newline, leaving no line break. */
  lemma BlankUsernameStripped(c: Credentials)
    requires IsBlank(c.username) && '\n' !in c.password
    ensures '\n' !in Strip(Encode(c))
  {
    var s := Encode(c);
    var u := |c.username|;
    assert forall i :: 0 <= i <= u ==> IsSpace(s[i]);
    var a := LeadingSpaces(s);
    assert a > u;
    var t := Strip(s);
    assert s[u + 1..] == c.password;
    assert t == s[u + 1..][a - u - 1..a - u - 1 + |t|];
  }

  /**
   * A line break inside either field gives more than two parts, so the file
   * is rejected even though `set_credentials` wrote it.
   */
  lemma NewlineInFieldRejected(c: Credentials)
    requires c.username != "" && c.password != ""
    requires '\r' !in c.username && '\r' !in c.password
    requires !IsSpace(c.username[0]) && !IsSpace(c.password[|c.password| - 1])
    requires '\n' in c.username || '\n' in c.password
    ensures Decode(Some(Encode(c))) == Failure(InvalidCredentials)
  {
    var s := Encode(c);
    assert '\r' !in s;
    assert s[0] == c.username[0] && s[|s| - 1] == c.password[|c.password| - 1];
    StripNoEdges(s);
    CountAppend(c.username + "\n", c.password, '\n');
    CountAppend(c.username, "\n", '\n');
    CountAbsent(c.username, '\n');
    CountAbsent(c.password, '\n');
  }
}
