/**
 * The credential generator: random strings over the ASCII letters and
 * digits, used once per run as the FTP username and the FTP password.
 * The random source is modelled as nondeterministic choice, so what is
 * proved holds for every sequence of draws.
 */
module Credentials {

  /** The `n` consecutive code points starting at `lo`. */
  function CharRange(lo: char, n: nat): string
    requires lo as int + n <= 0xD800
  {
    seq(n, i requires 0 <= i < n => (lo as int + i) as char)
  }

  /**
   * `string.ascii_letters + string.digits`, in Python's order:
   * a-z, then A-Z, then 0-9.
   */
  const Characters: string := CharRange('a', 26) + CharRange('A', 26) + CharRange('0', 10)

  predicate IsAsciiAlphanumeric(c: char)
  {
    'a' <= c <= 'z' || 'A' <= c <= 'Z' || '0' <= c <= '9'
  }

  /** The alphabet is exactly the 62 ASCII letters and digits. */
  lemma CharactersAreAlphanumeric(c: char)
    ensures c in Characters <==> IsAsciiAlphanumeric(c)
    ensures |Characters| == 62
  {
    if 'a' <= c <= 'z' {
      assert CharRange('a', 26)[c as int - 'a' as int] == c;
    } else if 'A' <= c <= 'Z' {
      assert CharRange('A', 26)[c as int - 'A' as int] == c;
    } else if '0' <= c <= '9' {
      assert CharRange('0', 10)[c as int - '0' as int] == c;
    }
  }

  /**
   * `generate_password(length)`: one character drawn from the alphabet per
   * step of `range(length)`, so a negative length gives the empty string.
   */
  method GeneratePassword(length: int := 16) returns (password: string)
    ensures |password| == if length < 0 then 0 else length
    ensures forall i :: 0 <= i < |password| ==> IsAsciiAlphanumeric(password[i])
  {
    password := "";
    var n := if length < 0 then 0 else length;
    for k := 0 to n
      invariant |password| == k
      invariant forall i :: 0 <= i < k ==> IsAsciiAlphanumeric(password[i])
    {
      assert Characters[0] in Characters;
      var c :| c in Characters;
      CharactersAreAlphanumeric(c);
      password := password + [c];
    }
  }

  datatype FtpCredentials = FtpCredentials(username: string, password: string)

  /** The run's FTP user: two independent calls with the default length. */
  method NewFtpCredentials() returns (cred: FtpCredentials)
    ensures |cred.username| == 16 && |cred.password| == 16
    ensures forall i :: 0 <= i < 16 ==>
      IsAsciiAlphanumeric(cred.username[i]) && IsAsciiAlphanumeric(cred.password[i])
  {
    var username := GeneratePassword();
    var password := GeneratePassword();
    cred := FtpCredentials(username, password);
  }
}
