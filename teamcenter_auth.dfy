/** `TeamcenterAuthManager`: stores Teamcenter credentials in a two-line file and reads them back. */
module TeamcenterAuthentication {
  import opened Wrappers
  import opened CredentialFile
  import Text

  class TeamcenterAuthManager {
    /** The contents of the credentials file, or None while it does not exist. */
    var stored: Option<string>

    /**
     * A manager attached to the fixed credentials file in the secrets
     * directory; `existing` is that file's contents when the manager is built
     * (None when no earlier session saved credentials).
     */
    constructor (existing: Option<string>)
      ensures stored == existing
    {
      stored := existing;
    }

    /**
     * `set_credentials` with the two prompted values as parameters: an empty
     * username or password writes nothing; otherwise the file is overwritten
     * with the encoded pair.
     */
    method SetCredentials(username: string, password: string) returns (saved: bool)
      modifies this
      ensures saved <==> username != "" && password != ""
      ensures stored == if saved then Some(Encode(Credentials(username, password))) else old(stored)
    {
      if username == "" || password == "" {
        return false;
      }
      stored := Some(Encode(Credentials(username, password)));
      return true;
    }

    /** `get_credentials`: the stored pair, or the exception it raises. */
    function GetCredentials(): (r: Result<Credentials, AuthError>)
      reads this
      ensures stored.None? ==> r == Failure(FileNotFound)
      ensures r.Success? ==> Encode(r.value) == Text.Strip(Text.UniversalNewlines(stored.value))
    {
      Decode(stored)
    }

    /** Setting a well-formed pair and reading it back gives that pair. */
    method SetThenGet(username: string, password: string) returns (r: Result<Credentials, AuthError>)
      requires '\n' !in username && '\n' !in password && '\r' !in username && '\r' !in password
      requires username != "" && password != ""
      requires !Text.IsSpace(username[0]) && !Text.IsSpace(password[|password| - 1])
      modifies this
      ensures r == Success(Credentials(username, password))
    {
      var saved := SetCredentials(username, password);
      RoundTrip(Credentials(username, password));
      r := GetCredentials();
    }
  }
}
