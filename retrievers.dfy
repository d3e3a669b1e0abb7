/** `get_retrievers`: the knowledge-base directories consulted for a user's question.
    The sub-paths come from the profile in a fixed order, `common` always last; a directory
    whose loader yields nothing is dropped. The loader is a parameter: it stands for
    `load_retriever`, whose vector-store work is not modelled. */
module Retrievers {
  import opened Profiles

  /** The root directory of the vector stores. */
  const VectorBase: string := "./chroma_db"

  /** The sub-path every user consults. */
  const Common: string := "common"

  /** `os.path.join(base, sub)` for a base that is non-empty and has no trailing slash:
      an absolute `sub` replaces the base. */
  function Join(base: string, sub: string): (path: string)
    requires base != [] && base[|base| - 1] != '/'
    ensures |sub| > 0 && sub[0] == '/' ==> path == sub
    ensures !(|sub| > 0 && sub[0] == '/') ==>
      |path| == |base| + 1 + |sub| && path[..|base| + 1] == base + "/" && path[|base| + 1..] == sub
  {
    if |sub| > 0 && sub[0] == '/' then sub else base + "/" + sub
  }

  /** The sub-paths of `get_retrievers`, in the order it appends them: one per known attribute,
      then `common`. */
  function SubPaths(p: Profile): (ps: seq<string>)
    ensures |ps| == 1 + KnownCount(p)
    ensures ps[|ps| - 1] == Common
  {
    (if Known(p.mbti) then ["self/" + p.mbti] else [])
    + (if Known(p.targetMbti) then ["partner/" + p.targetMbti] else [])
    + (if Known(p.gender) then [p.gender] else [])
    + [Common]
  }

  /** The retrievers obtained for the given paths, in path order, skipping empty loads. */
  function Loaded<R>(paths: seq<string>, load: string -> Option<R>): (rs: seq<R>)
    ensures |rs| <= |paths|
  {
    if paths == [] then []
    else
      var k := |paths| - 1;
      var ret := load(Join(VectorBase, paths[k]));
      Loaded(paths[..k], load) + (if ret.Some? then [ret.value] else [])
  }

  /** Loading one more path appends its retriever, if any. */
  lemma LoadedStep<R>(paths: seq<string>, i: nat, load: string -> Option<R>)
    requires i < |paths|
    ensures var ret := load(Join(VectorBase, paths[i]));
      Loaded(paths[..i + 1], load) == Loaded(paths[..i], load) + (if ret.Some? then [ret.value] else [])
  {
    assert paths[..i + 1][..i] == paths[..i];
  }

  /** The first half of `get_retrievers`: append a sub-path per known attribute, then `common`. */
  method CollectSubPaths(p: Profile) returns (subPaths: seq<string>)
    ensures subPaths == SubPaths(p)
  {
    subPaths := [];
    if p.mbti != "" && p.mbti != Unknown {
      subPaths := subPaths + ["self/" + p.mbti];
    }
    if p.targetMbti != "" && p.targetMbti != Unknown {
      subPaths := subPaths + ["partner/" + p.targetMbti];
    }
    if p.gender != "" && p.gender != Unknown {
      subPaths := subPaths + [p.gender];
    }
    subPaths := subPaths + [Common];
  }

  /** `get_retrievers`: collect the sub-paths, then keep each loader result that is present. */
  method GetRetrievers<R>(p: Profile, load: string -> Option<R>) returns (retrievers: seq<R>)
    ensures retrievers == Loaded(SubPaths(p), load)
  {
    var subPaths := CollectSubPaths(p);
    retrievers := [];
    var i := 0;
    while i < |subPaths|
      invariant 0 <= i <= |subPaths|
      invariant retrievers == Loaded(subPaths[..i], load)
    {
      var path := Join(VectorBase, subPaths[i]);
      var ret := load(path);
      LoadedStep(subPaths, i, load);
      if ret.Some? {
        retrievers := retrievers + [ret.value];
      }
      i := i + 1;
    }
    assert subPaths[..i] == subPaths;
  }

  /** How many of the three profile attributes are known. */
  function KnownCount(p: Profile): nat {
    (if Known(p.mbti) then 1 else 0) + (if Known(p.targetMbti) then 1 else 0) + (if Known(p.gender) then 1 else 0)
  }

  /** The sub-path list has one entry per known attribute plus `common`, which is always last;
      a known type code comes first and a known gender comes just before `common`. */
  lemma SubPathsShape(p: Profile)
    ensures var ps := SubPaths(p);
      && |ps| == 1 + KnownCount(p)
      && 1 <= |ps| <= 4
      && ps[|ps| - 1] == Common
      && (Known(p.mbti) ==> ps[0] == "self/" + p.mbti)
      && (Known(p.targetMbti) ==> ps[if Known(p.mbti) then 1 else 0] == "partner/" + p.targetMbti)
      && (Known(p.gender) ==> ps[|ps| - 2] == p.gender)
  {
  }

  /** A profile with nothing known consults `common` alone. */
  lemma UnknownProfileUsesCommonOnly(p: Profile)
    requires !Known(p.mbti) && !Known(p.targetMbti) && !Known(p.gender)
    ensures SubPaths(p) == [Common]
  {
  }

  /** Loading keeps path order: the retrievers of a concatenation are those of each part, in turn. */
  lemma {:induction false} LoadedAppend<R>(a: seq<string>, b: seq<string>, load: string -> Option<R>)
    ensures Loaded(a + b, load) == Loaded(a, load) + Loaded(b, load)
  {
    if b == [] {
      assert a + b == a;
    } else {
      var k := |b| - 1;
      assert (a + b)[..|a + b| - 1] == a + b[..k];
      LoadedAppend(a, b[..k], load);
    }
  }

  /** No retriever comes back exactly when every path's load is empty (the case in which no
      retrieval chain is built). */
  lemma {:induction false} LoadedEmptyIff<R>(paths: seq<string>, load: string -> Option<R>)
    ensures Loaded(paths, load) == [] <==> forall j :: 0 <= j < |paths| ==> load(Join(VectorBase, paths[j])).None?
  {
    if paths != [] {
      var k := |paths| - 1;
      LoadedEmptyIff(paths[..k], load);
      assert forall j :: 0 <= j < k ==> paths[..k][j] == paths[j];
    }
  }

  /** When every load succeeds nothing is dropped: one retriever per path, the i-th from the i-th path. */
  lemma {:induction false} LoadedAllPresent<R>(paths: seq<string>, load: string -> Option<R>)
    requires forall j :: 0 <= j < |paths| ==> load(Join(VectorBase, paths[j])).Some?
    ensures |Loaded(paths, load)| == |paths|
    ensures forall j :: 0 <= j < |paths| ==> Loaded(paths, load)[j] == load(Join(VectorBase, paths[j])).value
  {
    if paths != [] {
      var k := |paths| - 1;
      assert forall j :: 0 <= j < k ==> paths[..k][j] == paths[j];
      LoadedAllPresent(paths[..k], load);
    }
  }

  /** If the common store loads, the last retriever is the common one. */
  lemma CommonRetrieverLast<R>(p: Profile, load: string -> Option<R>)
    requires load(Join(VectorBase, Common)).Some?
    ensures var rs := Loaded(SubPaths(p), load);
      |rs| > 0 && rs[|rs| - 1] == load(Join(VectorBase, Common)).value
  {
    var ps := SubPaths(p);
    assert ps[..|ps| - 1] + [Common] == ps;
    LoadedAppend(ps[..|ps| - 1], [Common], load);
    assert Loaded([Common], load) == [load(Join(VectorBase, Common)).value] by {
      assert [Common][..0] == [];
    }
  }

  /** Every path's text starts with the vector-store root and a slash, unless the stored gender
      itself starts with a slash: only that attribute is used as a sub-path verbatim. The text
      may still climb out of the root through `..` (see `ParentStepLeavesBase`). */
  lemma PathsUnderBase(p: Profile)
    requires !(|p.gender| > 0 && p.gender[0] == '/')
    ensures forall sub :: sub in SubPaths(p) ==>
      var path := Join(VectorBase, sub); |path| > |VectorBase| && path[..|VectorBase| + 1] == VectorBase + "/"
  {
  }

  /** Two consecutive dots somewhere in s: a `..` step, once the path is resolved, or a name
      that contains one. */
  predicate HasDotDot(s: string) {
    exists i :: 0 <= i < |s| - 1 && s[i] == '.' && s[i + 1] == '.'
  }

  /** As written, a stored gender (or partner code) is used as a path part unchecked: a gender of
      "../secret" yields a path that leaves the vector-store root. */
  lemma ParentStepLeavesBase()
    ensures var p := Profile(Unknown, "../secret", Unknown, false);
      && SubPaths(p) == ["../secret", Common]
      && Join(VectorBase, SubPaths(p)[0]) == "./chroma_db/../secret"
      && HasDotDot(Join(VectorBase, SubPaths(p)[0])[|VectorBase| + 1..])
  {
    var p := Profile(Unknown, "../secret", Unknown, false);
    assert !Known(p.mbti) && !Known(p.targetMbti) && Known(p.gender);
    var path := Join(VectorBase, "../secret");
    assert path[|VectorBase| + 1..] == "../secret";
    assert "../secret"[0] == '.' && "../secret"[1] == '.';
  }

  /** A profile with only a known partner code has that code's directory and `common`. */
  lemma PartnerOnlySubPaths(code: string)
    requires Known(code)
    ensures SubPaths(Profile(Unknown, Unknown, code, false)) == ["partner/" + code, Common]
  {
    assert !Known(Unknown);
  }

  /** As written, the stored partner code is used unchecked too: "../../secret" climbs out of
      the `partner` directory and then out of the root. */
  lemma PartnerCodeLeavesBase()
    ensures var p := Profile(Unknown, Unknown, "../../secret", false);
      && SubPaths(p) == ["partner/../../secret", Common]
      && Join(VectorBase, SubPaths(p)[0]) == "./chroma_db/partner/../../secret"
      && HasDotDot(Join(VectorBase, SubPaths(p)[0])[|VectorBase| + 1..])
  {
    var code, sub := "../../secret", "partner/../../secret";
    PartnerOnlySubPaths(code);
    assert "partner/" + code == sub;
    PartnerPathText();
    assert sub[8] == '.' && sub[9] == '.';
  }

  /** The text of the path built for the sub-path "partner/../../secret". */
  lemma PartnerPathText()
    ensures var path := Join(VectorBase, "partner/../../secret");
      path == "./chroma_db/partner/../../secret" && path[|VectorBase| + 1..] == "partner/../../secret"
  {
    assert VectorBase + "/" + "partner/../../secret" == "./chroma_db/partner/../../secret";
  }

  /** As written, a stored gender starting with a slash replaces the root altogether. */
  lemma AbsoluteGenderReplacesBase()
    ensures var p := Profile(Unknown, "/secret", Unknown, false);
      SubPaths(p) == ["/secret", Common] && Join(VectorBase, SubPaths(p)[0]) == "/secret"
  {
    var p := Profile(Unknown, "/secret", Unknown, false);
    assert !Known(p.mbti) && !Known(p.targetMbti) && Known(p.gender);
  }

  /** An attribute usable as a path part under the root: neither absolute nor holding `..`. */
  predicate Confined(s: string) {
    !(|s| > 0 && s[0] == '/') && !HasDotDot(s)
  }

  /** The sub-paths with the check the root directory evidently needs: an attribute is used only
      when it is known and confined. */
  function ConfinedSubPaths(p: Profile): (ps: seq<string>)
    ensures 1 <= |ps| <= |SubPaths(p)|
    ensures ps[|ps| - 1] == Common
  {
    (if Known(p.mbti) && Confined(p.mbti) then ["self/" + p.mbti] else [])
    + (if Known(p.targetMbti) && Confined(p.targetMbti) then ["partner/" + p.targetMbti] else [])
    + (if Known(p.gender) && Confined(p.gender) then [p.gender] else [])
    + [Common]
  }

  /** No `..` appears across the seam of a concatenation whose left part does not end in a dot. */
  lemma NoDotDotAppend(a: string, b: string)
    requires !HasDotDot(a) && !HasDotDot(b)
    requires a != [] && a[|a| - 1] != '.'
    ensures !HasDotDot(a + b)
  {
    forall i | 0 <= i < |a + b| - 1
      ensures !((a + b)[i] == '.' && (a + b)[i + 1] == '.')
    {
      if i < |a| - 1 {
        assert (a + b)[i] == a[i] && (a + b)[i + 1] == a[i + 1];
      } else if i >= |a| {
        assert (a + b)[i] == b[i - |a|] && (a + b)[i + 1] == b[i - |a| + 1];
      }
    }
  }

  /** A confined prefix ending in a slash keeps a confined attribute confined. */
  lemma PrefixedConfined(prefix: string, s: string)
    requires Confined(prefix) && Confined(s)
    requires prefix != [] && prefix[|prefix| - 1] == '/'
    ensures Confined(prefix + s)
  {
    NoDotDotAppend(prefix, s);
    assert (prefix + s)[0] == prefix[0];
  }

  /** With the check, every sub-path is confined. */
  lemma ConfinedSubPathsConfined(p: Profile)
    ensures forall sub :: sub in ConfinedSubPaths(p) ==> Confined(sub)
  {
    var self := if Known(p.mbti) && Confined(p.mbti) then ["self/" + p.mbti] else [];
    var partner := if Known(p.targetMbti) && Confined(p.targetMbti) then ["partner/" + p.targetMbti] else [];
    var gender := if Known(p.gender) && Confined(p.gender) then [p.gender] else [];
    assert ConfinedSubPaths(p) == self + partner + gender + [Common];
    if self != [] {
      assert Confined("self/");
      PrefixedConfined("self/", p.mbti);
    }
    if partner != [] {
      assert Confined("partner/");
      PrefixedConfined("partner/", p.targetMbti);
    }
    assert Confined(Common);
  }

  /** With the check, every path is the root, a slash, and a remainder without any `..` step. */
  lemma ConfinedPathsUnderBase(p: Profile)
    ensures forall sub :: sub in ConfinedSubPaths(p) ==>
      var path := Join(VectorBase, sub);
      |path| > |VectorBase| && path[..|VectorBase| + 1] == VectorBase + "/" && !HasDotDot(path[|VectorBase| + 1..])
  {
    ConfinedSubPathsConfined(p);
  }

  /** For a profile whose attributes are all confined the check changes nothing. */
  lemma ConfinedSubPathsAgree(p: Profile)
    requires Confined(p.mbti) && Confined(p.targetMbti) && Confined(p.gender)
    ensures ConfinedSubPaths(p) == SubPaths(p)
  {
  }
}
