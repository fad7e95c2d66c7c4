/** Small shared vocabulary. */
module Common {

  datatype Option<+T> = None | Some(value: T)

  /** Strings one after the other. */
  function Join(parts: seq<string>): string {
    if parts == [] then "" else Join(parts[..|parts| - 1]) + parts[|parts| - 1]
  }

  /** Joining is empty exactly when every part is. */
  lemma {:induction false} JoinEmpty(parts: seq<string>)
    ensures Join(parts) == "" <==> forall part :: part in parts ==> part == ""
  {
    if parts != [] {
      var init, last := parts[..|parts| - 1], parts[|parts| - 1];
      JoinEmpty(init);
      assert parts == init + [last];
      assert last in parts && forall part :: part in init ==> part in parts;
      assert |Join(parts)| == |Join(init)| + |last|;
    }
  }
}
