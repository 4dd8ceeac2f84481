/**
  Option validation: each action option may carry a verify block that
  rejects a value with a user error, and a rejection ends the action before
  it does anything else. The model takes the blocks in the order the options
  are declared; fastlane checks the values in the order the caller gave
  them, so when several options are wrong the message reported first may
  differ.
 */
module Validation {
  import opened RubyValues
  import opened Trace

  /** The verify block of option `key`: the values it accepts and the message it raises otherwise. */
  datatype Verify = Verify(key: string, accepts: Value -> bool, message: string)

  predicate Accepted(p: Bag, v: Verify) {
    v.accepts(Get(p, v.key))
  }

  /** The message of the first verify block that rejects its option, if any. */
  function FirstRejection(p: Bag, vs: seq<Verify>): (r: Option<string>)
    ensures r.None? <==> forall i :: 0 <= i < |vs| ==> Accepted(p, vs[i])
    ensures r.Some? ==> exists i :: 0 <= i < |vs| && !Accepted(p, vs[i]) && r.value == vs[i].message
                                    && forall j :: 0 <= j < i ==> Accepted(p, vs[j])
    decreases |vs|
  {
    if vs == [] then None
    else if !Accepted(p, vs[0]) then Some(vs[0].message)
    else
      var rest := FirstRejection(p, vs[1..]);
      assert forall i :: 1 <= i < |vs| ==> vs[i] == vs[1..][i - 1];
      if rest.Some? then
        var i :| 0 <= i < |vs[1..]| && !Accepted(p, vs[1..][i]) && rest.value == vs[1..][i].message
                 && forall j :: 0 <= j < i ==> Accepted(p, vs[1..][j]);
        assert forall j :: 0 <= j < i + 1 ==> Accepted(p, vs[j]) by {
          forall j | 0 <= j < i + 1 ensures Accepted(p, vs[j]) {
            if j > 0 {
              assert vs[j] == vs[1..][j - 1];
            }
          }
        }
        assert !Accepted(p, vs[i + 1]);
        rest
      else rest
  }

  /** The block at `k` is reported when it is the first one that rejects. */
  lemma FirstRejectionAt(p: Bag, vs: seq<Verify>, k: nat)
    requires k < |vs| && !Accepted(p, vs[k])
    requires forall j :: 0 <= j < k ==> Accepted(p, vs[j])
    ensures FirstRejection(p, vs) == Some(vs[k].message)
  {
    var i :| 0 <= i < |vs| && !Accepted(p, vs[i]) && FirstRejection(p, vs).value == vs[i].message
             && forall j :: 0 <= j < i ==> Accepted(p, vs[j]);
    assert i == k;
  }

  // ---------------------------------------------------------------------
  // Verify blocks shared by the actions
  // ---------------------------------------------------------------------

  const PlatformMessage: string := "Platform should be either android or ios"

  /** `['', 'android', 'ios'].include? value`. */
  predicate IsPlatform(v: Value) {
    v == Str("") || v == Str("android") || v == Str("ios")
  }

  const PlatformVerify: Verify := Verify("platform", IsPlatform, PlatformMessage)

  /** `[false, true].include? value`. */
  predicate IsBoolean(v: Value) {
    v.Bool?
  }

  const PathKey: string := "pathToConfigXML"
  const PathMessage: string := "Couldnt find config.xml! Please change your path."

  /** `File.exist?(value)`: a file or a directory of that name exists. */
  predicate PathExists(w: World, v: Value) {
    v.Str? && (v.s in w.files || v.s in w.directories)
  }

  function PathVerify(w: World): (r: Verify)
    ensures r.key == PathKey && r.message == PathMessage
    ensures forall v :: r.accepts(v) <==> PathExists(w, v)
  {
    Verify(PathKey, v => PathExists(w, v), PathMessage)
  }

  /** Runs `next` only when no verify block rejects the bag; a rejection issues no call. */
  function Validated<T>(p: Bag, vs: seq<Verify>, next: Run<T>): (r: Run<T>)
    ensures FirstRejection(p, vs).None? ==> r == next
    ensures FirstRejection(p, vs).Some? ==> r.trace == [] && r.result == Err(UserError(FirstRejection(p, vs).value))
  {
    match FirstRejection(p, vs)
    case Some(message) => Raise(UserError(message))
    case None => next
  }
}
