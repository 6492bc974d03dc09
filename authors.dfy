/** The author registry of SimpleAssets (table `authors`). */
module Authors {
  import opened Types

  /** `regauthor`: a first registration with a description longer than three bytes. */
  function RegAuthor(s: State, env: Env, author: Name, data: string, stemplate: string): (r: Result<State>)
    ensures r.Ok? <==> author in env.auth && |data| > 3 && author !in s.authors
    ensures r.Ok? ==> r.value == s.(authors := s.authors[author := Profile(data, stemplate)])
  {
    var profile := Profile(data, stemplate);
    :- Authorize(env, author);
    :- Require(|data| > 3, DataTooShort);
    :- Require(author !in s.authors,
               AlreadyRegistered);
    Ok(s.(authors := s.authors[author := profile]))
  }

  /** `authorupdate`: overwrite both fields of a registered profile, or delete it when both are empty. */
  function AuthorUpdate(s: State, env: Env, author: Name, data: string, stemplate: string): (r: Result<State>)
    ensures r.Ok? <==> author in env.auth && author in s.authors
    ensures r.Ok? && data == "" && stemplate == "" ==> r.value == s.(authors := s.authors - {author})
    ensures r.Ok? && (data != "" || stemplate != "") ==>
              r.value == s.(authors := s.authors[author := Profile(data, stemplate)])
  {
    var erase := data == "" && stemplate == "";
    :- Authorize(env, author);
    :- Require(author in s.authors, AuthorNotRegistered);
    if erase then Ok(s.(authors := s.authors - {author}))
    else Ok(s.(authors := s.authors[author := Profile(data, stemplate)]))
  }

  /** Registering and then clearing the profile leaves the state as it was. */
  lemma RegisterThenClear(s: State, env: Env, author: Name, data: string, stemplate: string)
    requires RegAuthor(s, env, author, data, stemplate).Ok?
    ensures AuthorUpdate(RegAuthor(s, env, author, data, stemplate).value, env, author, "", "") == Ok(s)
  {
    var s1 := s.(authors := s.authors[author := Profile(data, stemplate)]);
    assert s1.authors - {author} == s.authors;
    assert s1.(authors := s1.authors - {author}) == s;
  }
}
