/** Returning several values at once: the fixed user tables behind
    `getUserNameAndState` and `getUserNameStateAndAge`. */
module Lesson4 {
  import opened KotlinBase

  const UserNames: map<Int32, string> := map[101 := "Chike", 102 := "Segun", 104 := "Jane"]
  const UserStates: map<Int32, string> := map[101 := "Lagos", 102 := "Imo", 104 := "Enugu"]

  /** Kotlin's `map[key]`: null for a missing key. */
  function Lookup(m: map<Int32, string>, id: Int32): (r: Option<string>)
    ensures r.Some? <==> id in m
    ensures r.Some? ==> r.value == m[id]
  {
    if id in m then Some(m[id]) else None
  }

  /** `getUserNameAndState(id)`: `require(id > 0)` first, then the two table lookups. */
  function GetUserNameAndState(id: Int32): (r: Result<(Option<string>, Option<string>)>)
    ensures r.Throw? <==> id <= 0
    ensures r.Throw? ==> r.exception == IllegalArgumentException(Some("Error: id is less than 0"))
    ensures r.Ok? ==> r.value == (Lookup(UserNames, id), Lookup(UserStates, id))
  {
    if id <= 0 then Throw(IllegalArgumentException(Some("Error: id is less than 0")))
    else Ok((Lookup(UserNames, id), Lookup(UserStates, id)))
  }

  /** `getUserNameStateAndAge(id)`: the same guard (with a shorter message), the same two
      lookups, and a constant age. */
  function GetUserNameStateAndAge(id: Int32): (r: Result<(Option<string>, Option<string>, Int32)>)
    ensures r.Throw? <==> id <= 0
    ensures r.Throw? ==> r.exception == IllegalArgumentException(Some("id is less than 0"))
    ensures r.Ok? ==> r.value.2 == 6
  {
    if id <= 0 then Throw(IllegalArgumentException(Some("id is less than 0")))
    else Ok((Lookup(UserNames, id), Lookup(UserStates, id), 6))
  }

  /** Both functions agree on the name and state of every id they accept. */
  lemma TripleExtendsPair(id: Int32)
    ensures GetUserNameAndState(id).Ok? <==> GetUserNameStateAndAge(id).Ok?
    ensures GetUserNameAndState(id).Ok? ==>
      GetUserNameStateAndAge(id).value.0 == GetUserNameAndState(id).value.0 &&
      GetUserNameStateAndAge(id).value.1 == GetUserNameAndState(id).value.1
  {
  }

  /** A user has a name exactly when they have a state: both tables share their keys. */
  lemma TablesShareKeys(id: Int32)
    requires id > 0
    ensures GetUserNameAndState(id).value.0.Some? <==> GetUserNameAndState(id).value.1.Some?
    ensures GetUserNameAndState(id).value.0.Some? <==> id in {101, 102, 104}
  {
  }

  /** The sample program's destructurings of id 101, and the other table entries. */
  lemma UserSamples()
    ensures GetUserNameAndState(101) == Ok((Some("Chike"), Some("Lagos")))
    ensures GetUserNameAndState(102) == Ok((Some("Segun"), Some("Imo")))
    ensures GetUserNameAndState(104) == Ok((Some("Jane"), Some("Enugu")))
    ensures GetUserNameAndState(103) == Ok((None, None))
    ensures GetUserNameStateAndAge(101) == Ok((Some("Chike"), Some("Lagos"), 6))
    ensures GetUserNameAndState(0).Throw?
  {
  }
}
