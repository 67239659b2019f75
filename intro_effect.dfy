// The first-visit celebration of the page: an effect that launches confetti
// once per browsing session, remembered through a sessionStorage flag.

module IntroEffect {
  import opened Browser

  const ConfettiKey := "confettiShown"
  const ShownValue := "true"

  /** `!sessionStorage.getItem("confettiShown")`: null and the empty string are
      falsy in JavaScript, every other stored string (even "false") is truthy. */
  function ShouldFire(session: Store): (fire: bool)
    ensures fire <==> ConfettiKey !in session || session[ConfettiKey] == ""
  {
    match GetItem(session, ConfettiKey)
    case None => true
    case Some(v) => v == ""
  }

  /** The session storage after the effect has run once. */
  function AfterEffect(session: Store): Store
  {
    if ShouldFire(session) then SetItem(session, ConfettiKey, ShownValue) else session
  }

  /** Once the effect has run, the key holds "true": running it again fires
      nothing and changes nothing, and no other key is ever touched. */
  lemma FiresOncePerSession(session: Store, key: string)
    ensures ShouldFire(session) ==> GetItem(AfterEffect(session), ConfettiKey) == Some(ShownValue)
    ensures !ShouldFire(AfterEffect(session))
    ensures AfterEffect(AfterEffect(session)) == AfterEffect(session)
    ensures key != ConfettiKey ==> GetItem(AfterEffect(session), key) == GetItem(session, key)
  {
  }

  /** The mount effect of the page: read the flag, and when it is unset
      launch the confetti and record that it was shown. */
  method RunConfettiEffect(w: Window) returns (fired: bool)
    modifies w`sessionStorage
    ensures fired == ShouldFire(old(w.sessionStorage))
    ensures w.sessionStorage == AfterEffect(old(w.sessionStorage))
  {
    var hasShown := GetItem(w.sessionStorage, ConfettiKey);
    fired := hasShown == None || hasShown == Some("");
    if fired {
      w.sessionStorage := SetItem(w.sessionStorage, ConfettiKey, ShownValue);
    }
  }

  /** Two page loads in one session: the confetti fires at most once, and
      exactly once when the session starts without the flag. */
  method LoadTwice(w: Window) returns (first: bool, second: bool)
    modifies w`sessionStorage
    ensures first == ShouldFire(old(w.sessionStorage))
    ensures !second
    ensures w.sessionStorage == AfterEffect(old(w.sessionStorage))
  {
    first := RunConfettiEffect(w);
    FiresOncePerSession(old(w.sessionStorage), ConfettiKey);
    second := RunConfettiEffect(w);
  }
}
