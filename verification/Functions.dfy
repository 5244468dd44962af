/** Functions of a behavior (internal/cloudfront/function.go) and their CloudFront form (aws_models.go). */
module Functions {
  import opened Model
  import opened Associations

  const VIEWER_REQUEST := "viewer-request"
  const VIEWER_RESPONSE := "viewer-response"
  const ORIGIN_REQUEST := "origin-request"
  const ORIGIN_RESPONSE := "origin-response"

  function ViewerRequestFn(f: ViewerRequestFunction): Function {
    if f.functionType == TYPE_EDGE then RequestEdge(f.arn, VIEWER_REQUEST, f.includeBody)
    else RequestCloudfront(f.arn, VIEWER_REQUEST)
  }

  function ViewerResponseFn(f: ViewerFunction): Function {
    if f.functionType == TYPE_EDGE then ResponseEdge(f.arn, VIEWER_RESPONSE)
    else ResponseCloudfront(f.arn, VIEWER_RESPONSE)
  }

  function FunctionsOf(fa: FunctionAssociations): seq<Function> {
    (if fa.viewerRequest.Some? then [ViewerRequestFn(fa.viewerRequest.value)] else [])
    + (if fa.viewerResponse.Some? then [ViewerResponseFn(fa.viewerResponse.value)] else [])
    + (if fa.originRequest.Some? then
         [RequestEdge(fa.originRequest.value.arn, ORIGIN_REQUEST, fa.originRequest.value.includeBody)] else [])
    + (if fa.originResponse.Some? then [ResponseEdge(fa.originResponse.value.arn, ORIGIN_RESPONSE)] else [])
  }

  method NewFunctions(fa: FunctionAssociations) returns (functions: seq<Function>)
    ensures functions == FunctionsOf(fa)
  {
    functions := [];
    if fa.viewerRequest.Some? {
      var v := fa.viewerRequest.value;
      var fn := RequestCloudfront(v.arn, VIEWER_REQUEST);
      if v.functionType == TYPE_EDGE {
        fn := RequestEdge(v.arn, VIEWER_REQUEST, v.includeBody);
      }
      functions := functions + [fn];
    }
    if fa.viewerResponse.Some? {
      var v := fa.viewerResponse.value;
      var fn := ResponseCloudfront(v.arn, VIEWER_RESPONSE);
      if v.functionType == TYPE_EDGE {
        fn := ResponseEdge(v.arn, VIEWER_RESPONSE);
      }
      functions := functions + [fn];
    }
    if fa.originRequest.Some? {
      var f := fa.originRequest.value;
      functions := functions + [RequestEdge(f.arn, ORIGIN_REQUEST, f.includeBody)];
    }
    if fa.originResponse.Some? {
      functions := functions + [ResponseEdge(fa.originResponse.value.arn, ORIGIN_RESPONSE)];
    }
  }

  // ----- the two association lists of a cache behavior

  /** An entry of either list; `includeBody` is set for Lambda entries of request functions only. */
  datatype Association = Association(eventType: string, arn: string, includeBody: Option<bool>)

  datatype CacheBehavior = CacheBehavior(
    pathPattern: string, targetOriginId: string, functions: seq<Association>, lambdas: seq<Association>)

  function ToAssociation(f: Function): Association {
    Association(f.eventType, f.arn, if f.RequestEdge? then Some(f.includeBody) else None)
  }

  function AssociationsOf(fs: seq<Function>, edge: bool): seq<Association> {
    if fs == [] then []
    else
      var n := |fs| - 1;
      AssociationsOf(fs[..n], edge) + if fs[n].IsEdge() == edge then [ToAssociation(fs[n])] else []
  }

  function CacheBehaviorOf(b: Behavior): CacheBehavior {
    CacheBehavior(b.pathPattern, b.originHost, AssociationsOf(b.functions, false), AssociationsOf(b.functions, true))
  }

  method NewCacheBehavior(b: Behavior) returns (cb: CacheBehavior)
    ensures cb == CacheBehaviorOf(b)
    ensures cb.pathPattern == b.pathPattern && cb.targetOriginId == b.originHost
    ensures cb.functions == AssociationsOf(b.functions, false)
    ensures cb.lambdas == AssociationsOf(b.functions, true)
  {
    var cfFunctions, edgeFunctions: seq<Association> := [], [];
    for k := 0 to |b.functions|
      invariant cfFunctions == AssociationsOf(b.functions[..k], false)
      invariant edgeFunctions == AssociationsOf(b.functions[..k], true)
    {
      var fn := b.functions[k];
      assert b.functions[..k + 1][..k] == b.functions[..k];
      if fn.IsEdge() {
        var lfa := Association(fn.eventType, fn.arn, None);
        if fn.RequestEdge? {
          lfa := lfa.(includeBody := Some(fn.includeBody));
        }
        edgeFunctions := edgeFunctions + [lfa];
      } else {
        cfFunctions := cfFunctions + [Association(fn.eventType, fn.arn, None)];
      }
    }
    assert b.functions[..|b.functions|] == b.functions;
    return CacheBehavior(b.pathPattern, b.originHost, cfFunctions, edgeFunctions);
  }

  // ----- conservation: the lists hold each configured slot once

  /** What a slot asks for, and whether it asks for a Lambda entry. */
  predicate Asks(fa: FunctionAssociations, a: Association, edge: bool) {
    || (fa.viewerRequest.Some? && var v := fa.viewerRequest.value;
        edge == (v.functionType == "edge")
        && a == Association("viewer-request", v.arn, if edge then Some(v.includeBody) else None))
    || (fa.viewerResponse.Some? && var v := fa.viewerResponse.value;
        edge == (v.functionType == "edge") && a == Association("viewer-response", v.arn, None))
    || (fa.originRequest.Some? && edge
        && a == Association("origin-request", fa.originRequest.value.arn, Some(fa.originRequest.value.includeBody)))
    || (fa.originResponse.Some? && edge && a == Association("origin-response", fa.originResponse.value.arn, None))
  }

  predicate DistinctEvents(s: seq<Association>) {
    forall i, j :: 0 <= i < j < |s| ==> s[i].eventType != s[j].eventType
  }

  ghost predicate Conserves(fa: FunctionAssociations, functions: seq<Association>, lambdas: seq<Association>) {
    && (forall a :: a in functions <==> Asks(fa, a, false))
    && (forall a :: a in lambdas <==> Asks(fa, a, true))
    && DistinctEvents(functions + lambdas)
  }

  lemma {:induction false} AssociationsMembers(fs: seq<Function>, edge: bool, a: Association)
    ensures a in AssociationsOf(fs, edge) <==> exists f :: f in fs && f.IsEdge() == edge && ToAssociation(f) == a
  {
    if fs != [] {
      var n := |fs| - 1;
      AssociationsMembers(fs[..n], edge, a);
      assert fs == fs[..n] + [fs[n]];
    }
  }

  predicate DistinctFunctionEvents(fs: seq<Function>) {
    forall i, j :: 0 <= i < j < |fs| ==> fs[i].eventType != fs[j].eventType
  }

  lemma {:induction false} AssociationsDistinct(fs: seq<Function>)
    requires DistinctFunctionEvents(fs)
    ensures DistinctEvents(AssociationsOf(fs, false) + AssociationsOf(fs, true))
  {
    if fs != [] {
      var n := |fs| - 1;
      AssociationsDistinct(fs[..n]);
      var cf, edge := AssociationsOf(fs[..n], false), AssociationsOf(fs[..n], true);
      forall a: Association | a in cf + edge
        ensures a.eventType != fs[n].eventType
      {
        AssociationsMembers(fs[..n], false, a);
        AssociationsMembers(fs[..n], true, a);
      }
      var x := [ToAssociation(fs[n])];
      AppendDistinct(cf, edge, x[0]);
    }
  }

  lemma AppendDistinct(s: seq<Association>, t: seq<Association>, x: Association)
    requires DistinctEvents(s + t) && forall a :: a in s + t ==> a.eventType != x.eventType
    ensures DistinctEvents((s + [x]) + (t + [])) && DistinctEvents((s + []) + (t + [x]))
  {
    assert forall i :: 0 <= i < |s| ==> s[i] == (s + t)[i] && s[i] in s + t;
    assert forall i :: 0 <= i < |t| ==> t[i] == (s + t)[|s| + i] && t[i] in s + t;
  }

  /** A behavior that carries the functions of fa sends to CloudFront each slot of fa once, in the right list. */
  lemma FunctionsAreConserved(b: Behavior, fa: FunctionAssociations)
    requires b.functions == FunctionsOf(fa)
    ensures Conserves(fa, CacheBehaviorOf(b).functions, CacheBehaviorOf(b).lambdas)
  {
    var fs := FunctionsOf(fa);
    FourSlots(fa);
    forall a, edge
      ensures a in AssociationsOf(fs, edge) <==> Asks(fa, a, edge)
    {
      AssociationsMembers(fs, edge, a);
      SlotFor(fa, a, edge);
    }
    AssociationsDistinct(fs);
  }

  predicate TypedViewers(fa: FunctionAssociations) {
    && (fa.viewerRequest.Some? ==> fa.viewerRequest.value.functionType in ["edge", "cloudfront"])
    && (fa.viewerResponse.Some? ==> fa.viewerResponse.value.functionType in ["edge", "cloudfront"])
  }

  predicate IsViewer(a: Association) {
    a.eventType == "viewer-request" || a.eventType == "viewer-response"
  }

  /**
   * Valid are the associations with known viewer types that ask for no nameless function, for the viewer events in
   * one of the lists only, and for the body only where the entry can say so.
   */
  lemma ValidIffSendable(fa: FunctionAssociations)
    ensures Validate(fa) <==>
      && TypedViewers(fa)
      && (forall a, edge :: Asks(fa, a, edge) ==> a.arn != "")
      && (forall a, b :: Asks(fa, a, true) && Asks(fa, b, false) ==> !IsViewer(a))
      && (fa.viewerRequest.Some? && fa.viewerRequest.value.includeBody ==>
          Asks(fa, Association("viewer-request", fa.viewerRequest.value.arn, Some(true)), true))
  {
    if fa.viewerRequest.Some? {
      var v := fa.viewerRequest.value;
      var edge := v.functionType == "edge";
      assert Asks(fa, Association("viewer-request", v.arn, if edge then Some(v.includeBody) else None), edge);
    }
    if fa.viewerResponse.Some? {
      var v := fa.viewerResponse.value;
      assert Asks(fa, Association("viewer-response", v.arn, None), v.functionType == "edge");
    }
    if fa.originRequest.Some? {
      var f := fa.originRequest.value;
      assert Asks(fa, Association("origin-request", f.arn, Some(f.includeBody)), true);
    }
    if fa.originResponse.Some? {
      assert Asks(fa, Association("origin-response", fa.originResponse.value.arn, None), true);
    }
  }

  lemma FourSlots(fa: FunctionAssociations)
    ensures DistinctFunctionEvents(FunctionsOf(fa))
    ensures forall f :: f in FunctionsOf(fa) <==>
      || (fa.viewerRequest.Some? && f == ViewerRequestFn(fa.viewerRequest.value))
      || (fa.viewerResponse.Some? && f == ViewerResponseFn(fa.viewerResponse.value))
      || (fa.originRequest.Some?
          && f == RequestEdge(fa.originRequest.value.arn, ORIGIN_REQUEST, fa.originRequest.value.includeBody))
      || (fa.originResponse.Some? && f == ResponseEdge(fa.originResponse.value.arn, ORIGIN_RESPONSE))
  {
  }

  lemma SlotFor(fa: FunctionAssociations, a: Association, edge: bool)
    ensures Asks(fa, a, edge) <==> exists f :: f in FunctionsOf(fa) && f.IsEdge() == edge && ToAssociation(f) == a
  {
    FourSlots(fa);
    if Asks(fa, a, edge) {
      if fa.viewerRequest.Some? && a == ToAssociation(ViewerRequestFn(fa.viewerRequest.value)) {
        assert ViewerRequestFn(fa.viewerRequest.value) in FunctionsOf(fa);
      } else if fa.viewerResponse.Some? && a == ToAssociation(ViewerResponseFn(fa.viewerResponse.value)) {
        assert ViewerResponseFn(fa.viewerResponse.value) in FunctionsOf(fa);
      } else if fa.originRequest.Some? && a.eventType == ORIGIN_REQUEST {
        var f := RequestEdge(fa.originRequest.value.arn, ORIGIN_REQUEST, fa.originRequest.value.includeBody);
        assert f in FunctionsOf(fa);
      } else {
        assert ResponseEdge(fa.originResponse.value.arn, ORIGIN_RESPONSE) in FunctionsOf(fa);
      }
    }
  }
}
