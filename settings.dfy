/**
 * The input's configuration as the plugin reads it: a map from setting name to
 * string, the five setting names, Configuration.getString and
 * Configuration.stringIsSet.
 */
module Settings {
  import opened Wrappers

  type Configuration = map<string, string>

  const Keywords := "keywords"
  const ConsumerKey := "oauth_consumer_key"
  const ConsumerSecret := "oauth_consumer_secret"
  const AccessToken := "oauth_access_token"
  const AccessTokenSecret := "oauth_access_token_secret"

  /** Configuration.getString: the value, or null when the key is absent. */
  function GetString(c: Configuration, key: string): (r: Option<string>)
    ensures r.Some? <==> key in c
    ensures r.Some? ==> r.value == c[key]
  {
    if key in c then Some(c[key]) else None
  }

  /** Configuration.stringIsSet: present and not the empty string. */
  predicate StringIsSet(c: Configuration, key: string)
  {
    key in c && c[key] != ""
  }
}
