/** A client of the store and the token authority: create a user, then sign
    in with the password just registered. */
module SignInScenario {

  import opened Wrappers
  import opened UserStore
  import opened Jwt
  import opened Auth

  /** On an empty store, `create("a@x.com", "alice", "Secret123")` succeeds;
      signing in as written with "Secret123" is then refused, while the
      intended sign-in accepts it and issues tokens for alice's `userId`. */
  method CreateThenSignIn(hash: Hasher, now: int, later: int)
    returns (created: Result<User, UserError>, asWritten: Result<SignInTokens, AuthError>,
             intended: Result<SignInTokens, AuthError>)
    requires hash("Secret123", SaltRounds) != "" && hash("Secret123", SaltRounds) != "Secret123"
    ensures created.Success? && created.value.username == "alice"
    ensures created.value.password == hash("Secret123", SaltRounds)
    ensures asWritten == Failure(Unauthorized)
    ensures intended == Success(IssueTokens(Claims(created.value.userId, "alice"), later))
  {
    var service := new UserService([]);
    created := service.Create("a@x.com", "alice", "Secret123", hash, now);
    assert service.users == [created.value];
    asWritten := SignIn(service.users, "alice", Some("Secret123"), later);
    intended := SignInHashed(service.users, "alice", Some("Secret123"), hash, later);
  }
}
