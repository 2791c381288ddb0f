/** What the profile gate and the account adapter see of a request: the
    user behind it, the requested path, and the paths of the named routes. */
module Users {

  datatype Option<T> = None | Some(value: T)

  /** The profile fields both components look at. Each may be unset (None)
      or set to a possibly empty string. */
  datatype Profile = Profile(nickname: Option<string>, address: Option<string>, city: Option<string>)

  /** `request.user`: the anonymous user, or an authenticated account. */
  datatype RequestUser = Anonymous | Authenticated(profile: Profile)

  datatype Request = Request(user: RequestUser, path: string)

  /** The paths `reverse(...)` resolves the route names to. They are opaque
      here: nothing is assumed about them unless a lemma says so. */
  datatype Routes = Routes(
    home: string,
    profileSet: string,
    accountLogout: string,
    accountLogin: string,
    accountSignup: string)

  /** Python truthiness of an optional text field: set and non-empty. */
  predicate Present(field: Option<string>) {
    field.Some? && field.value != ""
  }

  /** A profile is complete when nickname, address and city are all present. */
  predicate IsComplete(profile: Profile) {
    Present(profile.nickname) && Present(profile.address) && Present(profile.city)
  }

  /** Incomplete means at least one of the three fields is unset or empty. */
  lemma IncompleteIffFieldMissing(profile: Profile)
    ensures !IsComplete(profile) <==>
      || profile.nickname == None || profile.nickname == Some("")
      || profile.address == None || profile.address == Some("")
      || profile.city == None || profile.city == Some("")
  {
  }
}
