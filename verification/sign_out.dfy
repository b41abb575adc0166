/**
 * The sign-out redirect the home page and the navbar both define: remove the
 * local user, wait for that to finish, then leave for the identity provider's
 * logout endpoint. The endpoint takes the client id and a percent-encoded
 * post-logout target as query parameters.
 */
module SignOut {
  import opened Types
  import opened Uri

  /** What a sign-out does, in order. */
  datatype Effect =
    | RemoveUser           // `auth.removeUser()`, awaited
    | Navigate(url: string) // `window.location.href = url`

  /** The logout URL: domain, `logout?client_id=`, the id, `&logout_uri=`, and
      the encoded target. */
  function LogoutUrl(domain: string, clientId: string, logoutUri: string): string {
    domain + "logout?client_id=" + clientId + "&logout_uri=" + EncodeUriComponent(logoutUri)
  }

  /** The effects of one sign-out. `removed` says whether `removeUser` resolved;
      when it rejects, the awaiting function throws before navigating. */
  function SignOutRedirect(domain: string, clientId: string, logoutUri: string, removed: bool): (effects: seq<Effect>)
    ensures |effects| > 0 && effects[0] == RemoveUser
    ensures forall i :: 0 <= i < |effects| && effects[i].Navigate? ==>
              removed && i > 0 && effects[i - 1] == RemoveUser
    ensures removed ==> effects[|effects| - 1] == Navigate(LogoutUrl(domain, clientId, logoutUri))
  {
    [RemoveUser] + (if removed then [Navigate(LogoutUrl(domain, clientId, logoutUri))] else [])
  }

  /** The query of a logout URL is everything after `logout?`. */
  lemma LogoutQuery(domain: string, clientId: string, enc: string)
    requires '?' !in domain
    requires '#' !in clientId && '#' !in enc
    ensures QueryOf(domain + "logout?client_id=" + clientId + "&logout_uri=" + enc)
              == "client_id=" + clientId + "&logout_uri=" + enc
  {
    var head := domain + "logout";
    var query := "client_id=" + clientId + "&logout_uri=" + enc;
    var url := domain + "logout?client_id=" + clientId + "&logout_uri=" + enc;
    assert url == head + ['?'] + query;
    IndexOfAfterPrefix(head, '?', query);
    assert url[|head| + 1..] == query;
    assert '#' !in query;
    IndexOfAbsent(query, '#');
  }

  /** The logout query splits into its two parameters. */
  lemma LogoutQuerySplit(clientId: string, enc: string)
    requires '&' !in clientId && '&' !in enc
    ensures SplitOn("client_id=" + clientId + "&logout_uri=" + enc, '&')
              == ["client_id=" + clientId, "logout_uri=" + enc]
  {
    var first := "client_id=" + clientId;
    var second := "logout_uri=" + enc;
    assert '&' !in first;
    assert "client_id=" + clientId + "&logout_uri=" + enc == first + ['&'] + second;
    SplitAfterFirst(first, '&', second);
    SplitWithoutSeparator(second, '&');
  }

  /** The two pieces of the logout query read as their name/value pairs. */
  lemma LogoutParams(clientId: string, enc: string)
    ensures Param("client_id=" + clientId) == ("client_id", clientId)
    ensures Param("logout_uri=" + enc) == ("logout_uri", enc)
  {
    ParamSplit("client_id", clientId);
    assert "client_id" + "=" + clientId == "client_id=" + clientId;
    ParamSplit("logout_uri", enc);
    assert "logout_uri" + "=" + enc == "logout_uri=" + enc;
  }

  /** The logout query carries exactly two parameters, `client_id` and
      `logout_uri`, and the second decodes to the target's UTF-8 bytes. */
  lemma LogoutQueryHasTwoParams(domain: string, clientId: string, logoutUri: string)
    requires '?' !in domain
    requires '&' !in clientId && '#' !in clientId
    ensures var ps := QueryParams(LogoutUrl(domain, clientId, logoutUri));
            && ps == [("client_id", clientId), ("logout_uri", EncodeUriComponent(logoutUri))]
            && PercentDecode(ps[1].1) == Some(Utf8String(logoutUri))
  {
    var enc := EncodeUriComponent(logoutUri);
    var url := LogoutUrl(domain, clientId, logoutUri);
    var parts := SplitOn(QueryOf(url), '&');
    assert parts == ["client_id=" + clientId, "logout_uri=" + enc] by {
      EncodedHasNoDelimiters(logoutUri);
      assert '#' !in enc && '&' !in enc;
      LogoutQuery(domain, clientId, enc);
      LogoutQuerySplit(clientId, enc);
    }
    var ps := QueryParams(url);
    assert ps == [("client_id", clientId), ("logout_uri", enc)] by {
      LogoutParams(clientId, enc);
      assert |ps| == 2 && ps[0] == Param(parts[0]) && ps[1] == Param(parts[1]);
    }
    DecodeInvertsEncode(logoutUri);
  }
}
