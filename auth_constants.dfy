/**
 * The fixed parts of the dashboard's authorize request (dashboard/awsServices.js)
 * and the fact that none of them holds a character the dashboard's query
 * parse treats specially. The long literals are written in short pieces so
 * that the verifier can check the characters of each piece on its own.
 */
module AuthConstants {
  const AppClientId: string := "3ej6b95mbs" + "u28e5nkcb6" + "oa8fnp"
  const AuthorizeEndpoint: string := "https://" + "emmaa.auth" + ".us-east-1" + ".amazon" + "cognito" + ".com" + "/oauth2" + "/authorize"
  const AuthEndpointBaseUrl: string := AuthorizeEndpoint + "?"
  const CustomScope: string := "https://" + "s3.console" + ".aws" + ".amazon" + ".com/s3" + "/buckets" + "/emmaa" + "/results" + ".read"
  const ScopeValue: string := "aws" + ".cognito" + ".signin" + ".user" + ".admin" + "+openid" + "+profile+" + CustomScope

  /** `s` holds none of the characters `getDictFromUrl` splits on or decodes. */
  predicate Plain(s: string)
  {
    '#' !in s && '?' !in s && '&' !in s && '=' !in s && '%' !in s
  }

  lemma PlainConcat(a: string, b: string)
    requires Plain(a) && Plain(b)
    ensures Plain(a + b)
  {
  }

  /** The fixed parts of the authorize URL are plain. */
  lemma AuthorizeConstantsPlain()
    ensures Plain(AuthorizeEndpoint) && Plain(AppClientId) && Plain(ScopeValue)
  {
    ClientIdPlain();
    EndpointPlain();
    ScopeValuePlain();
  }

  lemma ClientIdPlain()
    ensures Plain(AppClientId)
  {
    assert Plain("3ej6b95mbs");
    assert Plain("u28e5nkcb6");
    assert Plain("oa8fnp");
    PlainConcat("3ej6b95mbs", "u28e5nkcb6");
    PlainConcat("3ej6b95mbs" + "u28e5nkcb6", "oa8fnp");
  }

  lemma HostPlain()
    ensures Plain("https://" + "emmaa.auth" + ".us-east-1" + ".amazon" + "cognito" + ".com")
  {
    assert Plain("https://");
    assert Plain("emmaa.auth");
    assert Plain(".us-east-1");
    assert Plain(".amazon");
    assert Plain("cognito");
    assert Plain(".com");
    PlainConcat("https://", "emmaa.auth");
    PlainConcat("https://" + "emmaa.auth", ".us-east-1");
    PlainConcat("https://" + "emmaa.auth" + ".us-east-1", ".amazon");
    PlainConcat("https://" + "emmaa.auth" + ".us-east-1" + ".amazon", "cognito");
    PlainConcat("https://" + "emmaa.auth" + ".us-east-1" + ".amazon" + "cognito", ".com");
  }

  lemma EndpointPlain()
    ensures Plain(AuthorizeEndpoint)
  {
    var host := "https://" + "emmaa.auth" + ".us-east-1" + ".amazon" + "cognito" + ".com";
    HostPlain();
    assert Plain("/oauth2");
    assert Plain("/authorize");
    PlainConcat(host, "/oauth2");
    PlainConcat(host + "/oauth2", "/authorize");
  }

  lemma CustomScopePlain()
    ensures Plain(CustomScope)
  {
    assert Plain("https://");
    assert Plain("s3.console");
    assert Plain(".aws");
    assert Plain(".amazon");
    assert Plain(".com/s3");
    assert Plain("/buckets");
    assert Plain("/emmaa");
    assert Plain("/results");
    assert Plain(".read");
    var s1 := "https://" + "s3.console";
    PlainConcat("https://", "s3.console");
    PlainConcat(s1, ".aws");
    PlainConcat(s1 + ".aws", ".amazon");
    PlainConcat(s1 + ".aws" + ".amazon", ".com/s3");
    var s2 := s1 + ".aws" + ".amazon" + ".com/s3";
    PlainConcat(s2, "/buckets");
    PlainConcat(s2 + "/buckets", "/emmaa");
    PlainConcat(s2 + "/buckets" + "/emmaa", "/results");
    PlainConcat(s2 + "/buckets" + "/emmaa" + "/results", ".read");
  }

  lemma ScopeValuePlain()
    ensures Plain(ScopeValue)
  {
    assert Plain("aws");
    assert Plain(".cognito");
    assert Plain(".signin");
    assert Plain(".user");
    assert Plain(".admin");
    assert Plain("+openid");
    assert Plain("+profile+");
    var s1 := "aws" + ".cognito";
    PlainConcat("aws", ".cognito");
    PlainConcat(s1, ".signin");
    PlainConcat(s1 + ".signin", ".user");
    PlainConcat(s1 + ".signin" + ".user", ".admin");
    var s2 := s1 + ".signin" + ".user" + ".admin";
    PlainConcat(s2, "+openid");
    PlainConcat(s2 + "+openid", "+profile+");
    CustomScopePlain();
    PlainConcat(s2 + "+openid" + "+profile+", CustomScope);
  }
}
