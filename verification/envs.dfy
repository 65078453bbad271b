/**
 The environment settings module: each comma-separated environment variable
 becomes a list of names, with a per-variable default when the variable is
 unset or empty (JavaScript treats the empty string as false).
 */
module Envs {
  import opened Wrappers

  const Separator: char := ','

  /** Number of separators in `s`. */
  function Commas(s: string): nat
  {
    if |s| == 0 then 0 else (if s[0] == Separator then 1 else 0) + Commas(s[1..])
  }

  /** JavaScript's `pieces.join(",")`. */
  function Join(pieces: seq<string>): string
  {
    if |pieces| == 0 then ""
    else if |pieces| == 1 then pieces[0]
    else pieces[0] + [Separator] + Join(pieces[1..])
  }

  /** JavaScript's `s.split(",")`: the maximal separator-free segments of `s`, in order. */
  function Split(s: string): (pieces: seq<string>)
    ensures |pieces| == Commas(s) + 1
    ensures forall i :: 0 <= i < |pieces| ==> Separator !in pieces[i]
    decreases |s|
  {
    if |s| == 0 then [""]
    else
      var rest := Split(s[1..]);
      if s[0] == Separator then [""] + rest
      else [[s[0]] + rest[0]] + rest[1..]
  }

  /** Joining the pieces with the separator gives back the string that was split. */
  lemma {:induction false} JoinSplit(s: string)
    ensures Join(Split(s)) == s
    decreases |s|
  {
    if |s| > 0 {
      var rest := Split(s[1..]);
      JoinSplit(s[1..]);
      if s[0] == Separator {
        assert Split(s) == [""] + rest;
        assert ([""] + rest)[1..] == rest;
      } else {
        var pieces := [[s[0]] + rest[0]] + rest[1..];
        assert Split(s) == pieces;
        assert pieces[1..] == rest[1..];
        if |rest| > 1 {
          assert Join(rest) == rest[0] + [Separator] + Join(rest[1..]);
          assert Join(pieces) == [s[0]] + rest[0] + [Separator] + Join(rest[1..]);
        }
        assert s == [s[0]] + s[1..];
      }
    }
  }

  /**
   Split is the only way to cut a string into separator-free pieces that join
   back to it: the pieces are kept verbatim, with no trimming, no removal of
   duplicates and no dropping of empty pieces.
   */
  lemma {:induction false} SplitUnique(pieces: seq<string>, s: string)
    requires |pieces| >= 1
    requires forall i :: 0 <= i < |pieces| ==> Separator !in pieces[i]
    requires Join(pieces) == s
    ensures Split(s) == pieces
    decreases |s|
  {
    if |pieces[0]| == 0 {
      if |pieces| > 1 {
        assert s == [Separator] + Join(pieces[1..]);
        assert s[1..] == Join(pieces[1..]);
        SplitUnique(pieces[1..], s[1..]);
        assert pieces == [""] + pieces[1..];
      }
    } else {
      var c := pieces[0][0];
      assert c in pieces[0];
      var shorter := [pieces[0][1..]] + pieces[1..];
      forall i | 0 <= i < |shorter|
        ensures Separator !in shorter[i]
      {
        if i == 0 {
          assert forall k :: 0 <= k < |pieces[0][1..]| ==> pieces[0][1..][k] == pieces[0][k + 1];
        } else {
          assert shorter[i] == pieces[i];
        }
      }
      assert shorter[1..] == pieces[1..];
      if |pieces| == 1 {
        assert Join(shorter) == pieces[0][1..];
      } else {
        assert Join(shorter) == pieces[0][1..] + [Separator] + Join(pieces[1..]);
        assert s == pieces[0] + [Separator] + Join(pieces[1..]);
      }
      assert pieces[0] == [c] + pieces[0][1..];
      assert s[0] == c && s[1..] == Join(shorter);
      SplitUnique(shorter, s[1..]);
      assert Split(s) == [[c] + shorter[0]] + shorter[1..];
    }
  }

  /** JavaScript truthiness of an environment read: set and not the empty string. */
  predicate Truthy(v: Option<string>)
  {
    v.Some? && v.value != ""
  }

  /** `X ? X.split(",") : undefined` — the variables whose default is "absent". */
  function SplitOrAbsent(v: Option<string>): (r: Option<seq<string>>)
    ensures r.None? <==> !Truthy(v)
    ensures r.Some? ==> |r.value| >= 1 && Join(r.value) == v.value
    ensures r.Some? ==> forall i :: 0 <= i < |r.value| ==> Separator !in r.value[i]
  {
    if Truthy(v) then JoinSplit(v.value); Some(Split(v.value)) else None
  }

  /** `X ? X.split(",") : []` — the variables whose default is the empty list. */
  function SplitOrEmpty(v: Option<string>): (r: seq<string>)
    ensures r == [] <==> !Truthy(v)
    ensures Truthy(v) ==> Join(r) == v.value
    ensures forall i :: 0 <= i < |r| ==> Separator !in r[i]
  {
    if Truthy(v) then JoinSplit(v.value); Split(v.value) else []
  }

  /** The four environment variables the module reads; `None` when unset. */
  datatype Environment = Environment(
    WHITELIST: Option<string>,
    GIST_WHITELIST: Option<string>,
    EXCLUDE_REPO: Option<string>,
    EXCLUDE_OWNER: Option<string>)

  /** The four values the module exports. */
  datatype Settings = Settings(
    whitelist: Option<seq<string>>,
    gistWhitelist: Option<seq<string>>,
    excludeRepositories: seq<string>,
    excludeOwner: seq<string>)

  /** The module's top level, evaluated once against the environment. */
  function Load(env: Environment): (s: Settings)
    ensures s.whitelist.None? <==> !Truthy(env.WHITELIST)
    ensures s.gistWhitelist.None? <==> !Truthy(env.GIST_WHITELIST)
    ensures s.excludeRepositories == [] <==> !Truthy(env.EXCLUDE_REPO)
    ensures s.excludeOwner == [] <==> !Truthy(env.EXCLUDE_OWNER)
    ensures Truthy(env.WHITELIST) ==> s.whitelist == Some(Split(env.WHITELIST.value))
    ensures Truthy(env.GIST_WHITELIST) ==> s.gistWhitelist == Some(Split(env.GIST_WHITELIST.value))
    ensures Truthy(env.EXCLUDE_REPO) ==> s.excludeRepositories == Split(env.EXCLUDE_REPO.value)
    ensures Truthy(env.EXCLUDE_OWNER) ==> s.excludeOwner == Split(env.EXCLUDE_OWNER.value)
  {
    Settings(
      SplitOrAbsent(env.WHITELIST),
      SplitOrAbsent(env.GIST_WHITELIST),
      SplitOrEmpty(env.EXCLUDE_REPO),
      SplitOrEmpty(env.EXCLUDE_OWNER))
  }

  /** Empty pieces, repeated pieces and surrounding blanks all survive the split. */
  lemma SplitKeepsPiecesVerbatim()
    ensures Split(",,") == ["", "", ""]
    ensures Split("a,") == ["a", ""]
    ensures Split("a,a") == ["a", "a"]
    ensures Split("a, b") == ["a", " b"]
  {
    SplitUnique(["", "", ""], ",,");
    SplitUnique(["a", ""], "a,");
    SplitUnique(["a", "a"], "a,a");
    SplitUnique(["a", " b"], "a, b");
  }
}
