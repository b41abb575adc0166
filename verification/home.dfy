/**
 * The home page: the greeting name taken from the signed-in user's e-mail
 * address, and the sign-out redirect with the page's own constants.
 */
module Home {
  import opened Types
  import opened Uri
  import opened SignOut

  /** The app client id, the post-logout target and the identity provider's
      hosted domain, as the home page spells them. */
  const ClientId: string := "1a2t44pe0ate3m869hnu1q8ong"
  const LogoutTarget: string := "https://d1wars3xdlos6i.cloudfront.net/"
  const CognitoDomain: string := "https://ap-south-1ixlqtnfr0.auth.ap-south-1.amazoncognito.com/"

  /** `auth.user?.profile.email || "Guest"`. `email` is `None` when there is no
      user or the profile has no e-mail claim. */
  function ChosenEmail(email: Option<string>): (r: string)
    ensures r != ""
    ensures r == "Guest" <==> email.None? || email.value == "" || email.value == "Guest"
    ensures r != "Guest" ==> email == Some(r)
  {
    match email
    case Some(e) => if e != "" then e else "Guest"
    case None => "Guest"
  }

  /** The greeting name: the text before the first `@`, or the whole string
      when there is none (`includes("@") ? split("@")[0] : email`). */
  function Username(email: string): (u: string)
    ensures u <= email
    ensures '@' !in u
    ensures '@' !in email ==> u == email
    ensures '@' in email ==> |u| < |email| && email[|u|] == '@'
  {
    if '@' in email then email[..IndexOf(email, '@')] else email
  }

  /** An address splits at its first `@`: the local part is the username,
      whatever the domain part holds (another `@` included). */
  lemma UsernameOfAddress(local: string, domain: string)
    requires '@' !in local
    ensures Username(local + "@" + domain) == local
  {
    var e := local + "@" + domain;
    assert e == local + ['@'] + domain;
    IndexOfAfterPrefix(local, '@', domain);
    assert e[|local|] == '@';
    assert e[..|local|] == local;
  }

  /** Any two strings that the three clauses of `Username` accept are equal:
      the name is fully determined by the e-mail string. */
  lemma UsernameUnique(email: string, u: string)
    requires u <= email && '@' !in u
    requires '@' !in email ==> u == email
    requires '@' in email ==> |u| < |email| && email[|u|] == '@'
    ensures Username(email) == u
  {
    if '@' in email {
      var v := Username(email);
      assert |u| == |v|;
    }
  }

  /** A visitor without an e-mail is greeted as "Guest". */
  lemma GuestGreeting()
    ensures Username(ChosenEmail(None)) == "Guest"
    ensures Username(ChosenEmail(Some(""))) == "Guest"
  {
    assert '@' !in "Guest";
  }

  /** The home page's Logout button. */
  function HomeSignOut(removed: bool): (effects: seq<Effect>)
    ensures removed ==> effects == [RemoveUser, Navigate(LogoutUrl(CognitoDomain, ClientId, LogoutTarget))]
    ensures !removed ==> effects == [RemoveUser]
  {
    SignOutRedirect(CognitoDomain, ClientId, LogoutTarget, removed)
  }

  /** The hosted domain has no `?`, so the logout URL's query starts where the
      URL template puts it. Checked piece by piece to keep each step small. */
  lemma DomainHasNoQuery()
    ensures '?' !in CognitoDomain
  {
    var a, b, d := "https://ap-south-1ix", "lqtnfr0.auth.ap-sout", "h-1.amazoncognito.com/";
    assert CognitoDomain == a + b + d by { DomainPieces(); }
    assert '?' !in a by { NoQueryInFirstPiece(); }
    assert '?' !in b by { NoQueryInSecondPiece(); }
    assert '?' !in d by { NoQueryInThirdPiece(); }
    NotInConcat(a, b, '?');
    NotInConcat(a + b, d, '?');
  }

  lemma DomainPieces()
    ensures CognitoDomain == "https://ap-south-1ix" + "lqtnfr0.auth.ap-sout" + "h-1.amazoncognito.com/"
  {}

  lemma NoQueryInFirstPiece() ensures '?' !in "https://ap-south-1ix" {}
  lemma NoQueryInSecondPiece() ensures '?' !in "lqtnfr0.auth.ap-sout" {}
  lemma NoQueryInThirdPiece() ensures '?' !in "h-1.amazoncognito.com/" {}

  lemma NotInConcat(a: string, b: string, c: char)
    requires c !in a && c !in b
    ensures c !in a + b
  {}

  /** The post-logout target as it appears in the logout URL: the scheme's
      colon and the three slashes are escaped, everything else is kept. */
  lemma LogoutTargetEncoding(t: string)
    requires t == LogoutTarget
    ensures EncodeUriComponent(t) == "https%3A%2F%2Fd1wars3xdlos6i.cloudfront.net%2F"
  {
    TargetPieces();
    EncodedPieces(t);
    EscapedPieces();
  }

  lemma TargetPieces()
    ensures LogoutTarget == "https" + ":" + "/" + "/" + "d1wars3xdl" + "os6i.cloud" + "front.net" + "/"
  {
  }

  lemma EscapedPieces()
    ensures "https" + "%3A" + "%2F" + "%2F" + "d1wars3xdl" + "os6i.cloud" + "front.net" + "%2F"
            == "https%3A%2F%2Fd1wars3xdlos6i.cloudfront.net%2F"
  {
  }

  lemma EncodedPieces(t: string)
    requires t == "https" + ":" + "/" + "/" + "d1wars3xdl" + "os6i.cloud" + "front.net" + "/"
    ensures EncodeUriComponent(t) == "https" + "%3A" + "%2F" + "%2F" + "d1wars3xdl" + "os6i.cloud" + "front.net" + "%2F"
  {
    SchemeKept(); HostStartKept(); HostMiddleKept(); HostEndKept(); ColonAndSlashEscaped();
    EncodePieces("https", ":", "/", "/", "d1wars3xdl", "os6i.cloud", "front.net", "/",
                 "https", "%3A", "%2F", "%2F", "d1wars3xdl", "os6i.cloud", "front.net", "%2F");
  }

  lemma SchemeKept() ensures EncodeUriComponent("https") == "https" {
    var s := "https";
    assert forall i :: 0 <= i < |s| ==> Unreserved(s[i]);
  }

  lemma HostStartKept() ensures EncodeUriComponent("d1wars3xdl") == "d1wars3xdl" {
    var s := "d1wars3xdl";
    assert forall i :: 0 <= i < |s| ==> Unreserved(s[i]);
  }

  lemma HostMiddleKept() ensures EncodeUriComponent("os6i.cloud") == "os6i.cloud" {
    var s := "os6i.cloud";
    assert forall i :: 0 <= i < |s| ==> Unreserved(s[i]);
  }

  lemma HostEndKept() ensures EncodeUriComponent("front.net") == "front.net" {
    var s := "front.net";
    assert forall i :: 0 <= i < |s| ==> Unreserved(s[i]);
  }

  /** `:` is byte 0x3A and `/` is byte 0x2F, each escaped as one `%XX`. */
  lemma ColonAndSlashEscaped()
    ensures EncodeUriComponent(":") == "%3A"
    ensures EncodeUriComponent("/") == "%2F"
  {
    assert EncodeUriComponent(":") == EscapeAll(Utf8(':'));
    assert Utf8(':') == [0x3A];
    assert EscapeAll([0x3A]) == Escape(0x3A) + EscapeAll([]);
    assert EncodeUriComponent("/") == EscapeAll(Utf8('/'));
    assert Utf8('/') == [0x2F];
    assert EscapeAll([0x2F]) == Escape(0x2F) + EscapeAll([]);
  }

  /** Eight pieces encode to their eight encodings, concatenated. */
  lemma EncodePieces(p1: string, p2: string, p3: string, p4: string, p5: string, p6: string, p7: string, p8: string,
                     e1: string, e2: string, e3: string, e4: string, e5: string, e6: string, e7: string, e8: string)
    requires EncodeUriComponent(p1) == e1 && EncodeUriComponent(p2) == e2 && EncodeUriComponent(p3) == e3
    requires EncodeUriComponent(p4) == e4 && EncodeUriComponent(p5) == e5 && EncodeUriComponent(p6) == e6
    requires EncodeUriComponent(p7) == e7 && EncodeUriComponent(p8) == e8
    ensures EncodeUriComponent(p1 + p2 + p3 + p4 + p5 + p6 + p7 + p8) == e1 + e2 + e3 + e4 + e5 + e6 + e7 + e8
  {
    EncodeConcat(p1, p2);
    EncodeConcat(p1 + p2, p3);
    EncodeConcat(p1 + p2 + p3, p4);
    EncodeConcat(p1 + p2 + p3 + p4, p5);
    EncodeConcat(p1 + p2 + p3 + p4 + p5, p6);
    EncodeConcat(p1 + p2 + p3 + p4 + p5 + p6, p7);
    EncodeConcat(p1 + p2 + p3 + p4 + p5 + p6 + p7, p8);
  }

  /** The home page's logout URL carries exactly the client id and the encoded
      target as its two parameters, and the target decodes back to its bytes. */
  lemma HomeLogoutUrlWellFormed()
    ensures var ps := QueryParams(LogoutUrl(CognitoDomain, ClientId, LogoutTarget));
            && ps == [("client_id", ClientId), ("logout_uri", EncodeUriComponent(LogoutTarget))]
            && PercentDecode(ps[1].1) == Some(Utf8String(LogoutTarget))
  {
    DomainHasNoQuery();
    assert '&' !in ClientId && '#' !in ClientId;
    LogoutQueryHasTwoParams(CognitoDomain, ClientId, LogoutTarget);
  }
}
