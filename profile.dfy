/** The signed-in user's profile as the account sidebar edits it: names and
    one on/off switch per social network. */
module Profile {
  import opened Trips

  datatype UserProfile = UserProfile(
    firstName: string,
    lastName: string,
    socials: map<Social, bool>)

  const InitialProfile: UserProfile :=
    UserProfile("Ketan", "Saxena", map[LinkedIn := true, Facebook := false, Instagram := true])

  /** `{ ...socials, [key]: !socials[key] }`: flip one switch. A key that is
      missing reads as off, so it becomes on. */
  function ToggleSocial(socials: map<Social, bool>, key: Social): (r: map<Social, bool>)
    ensures r.Keys == socials.Keys + {key}
    ensures r[key] == !(key in socials && socials[key])
    ensures forall k :: k in socials && k != key ==> r[k] == socials[k]
  {
    socials[key := !(key in socials && socials[key])]
  }

  /** Every network has a switch. */
  predicate AllSwitches(socials: map<Social, bool>) {
    LinkedIn in socials && Facebook in socials && Instagram in socials
  }

  /** Flipping the same switch twice restores the profile's switches. */
  lemma ToggleSocialTwice(socials: map<Social, bool>, key: Social)
    requires key in socials
    ensures ToggleSocial(ToggleSocial(socials, key), key) == socials
  {
    var r := ToggleSocial(ToggleSocial(socials, key), key);
    assert r.Keys == socials.Keys;
    forall k | k in socials ensures r[k] == socials[k] {
    }
  }

  /** Switches for different networks are independent of each other. */
  lemma ToggleSocialCommutes(socials: map<Social, bool>, a: Social, b: Social)
    requires a != b
    ensures ToggleSocial(ToggleSocial(socials, a), b) == ToggleSocial(ToggleSocial(socials, b), a)
  {
    var l := ToggleSocial(ToggleSocial(socials, a), b);
    var r := ToggleSocial(ToggleSocial(socials, b), a);
    assert l.Keys == r.Keys;
    forall k | k in l ensures l[k] == r[k] {
    }
  }

  lemma ToggleKeepsAllSwitches(socials: map<Social, bool>, key: Social)
    requires AllSwitches(socials)
    ensures AllSwitches(ToggleSocial(socials, key))
    ensures ToggleSocial(socials, key).Keys == socials.Keys
  {
  }

  lemma InitialProfileHasAllSwitches()
    ensures AllSwitches(InitialProfile.socials)
  {
  }
}
