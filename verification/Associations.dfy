/** Function associations of a path: internal/k8s/function_association.go. */
module Associations {
  import opened Model

  const TYPE_EDGE := "edge"
  const TYPE_CLOUDFRONT := "cloudfront"

  datatype ViewerFunction = ViewerFunction(arn: string, functionType: string)
  datatype ViewerRequestFunction = ViewerRequestFunction(arn: string, functionType: string, includeBody: bool)
  datatype OriginFunction = OriginFunction(arn: string)
  datatype OriginRequestFunction = OriginRequestFunction(arn: string, includeBody: bool)

  datatype FunctionAssociations = FunctionAssociations(
    viewerRequest: Option<ViewerRequestFunction>,
    viewerResponse: Option<ViewerFunction>,
    originRequest: Option<OriginRequestFunction>,
    originResponse: Option<OriginFunction>)

  const EMPTY := FunctionAssociations(None, None, None, None)

  // ----- validation

  predicate ValidType(functionType: string) {
    functionType == TYPE_EDGE || functionType == TYPE_CLOUDFRONT
  }

  predicate ValidViewerRequest(f: Option<ViewerRequestFunction>) {
    f.Some? ==>
      && f.value.arn != "" && ValidType(f.value.functionType)
      && !(f.value.functionType == TYPE_CLOUDFRONT && f.value.includeBody)
  }

  predicate ValidViewerResponse(f: Option<ViewerFunction>) {
    f.Some? ==> f.value.arn != "" && ValidType(f.value.functionType)
  }

  predicate ValidOriginRequest(f: Option<OriginRequestFunction>) {
    f.Some? ==> f.value.arn != ""
  }

  predicate ValidOriginResponse(f: Option<OriginFunction>) {
    f.Some? ==> f.value.arn != ""
  }

  predicate SlotsValid(fa: FunctionAssociations) {
    && ValidViewerRequest(fa.viewerRequest) && ValidViewerResponse(fa.viewerResponse)
    && ValidOriginRequest(fa.originRequest) && ValidOriginResponse(fa.originResponse)
  }

  predicate ViewersCompatible(fa: FunctionAssociations) {
    fa.viewerRequest.Some? && fa.viewerResponse.Some? ==>
      fa.viewerRequest.value.functionType == fa.viewerResponse.value.functionType
  }

  predicate Validate(fa: FunctionAssociations) {
    SlotsValid(fa) && ViewersCompatible(fa)
  }

  // ----- merging

  predicate Agree<T(==)>(a: Option<T>, b: Option<T>) {
    a.Some? && b.Some? ==> a == b
  }

  function Either<T>(a: Option<T>, b: Option<T>): Option<T> {
    if a.Some? then a else b
  }

  predicate Compatible(a: FunctionAssociations, b: FunctionAssociations) {
    && Agree(a.viewerRequest, b.viewerRequest) && Agree(a.viewerResponse, b.viewerResponse)
    && Agree(a.originRequest, b.originRequest) && Agree(a.originResponse, b.originResponse)
  }

  function Joined(a: FunctionAssociations, b: FunctionAssociations): FunctionAssociations {
    FunctionAssociations(
      Either(a.viewerRequest, b.viewerRequest), Either(a.viewerResponse, b.viewerResponse),
      Either(a.originRequest, b.originRequest), Either(a.originResponse, b.originResponse))
  }

  function Merged(a: FunctionAssociations, b: FunctionAssociations): Result<FunctionAssociations> {
    if Compatible(a, b) then Ok(Joined(a, b)) else Err(ConflictingAssociations)
  }

  method Merge(fa: FunctionAssociations, other: FunctionAssociations) returns (r: Result<FunctionAssociations>)
    ensures r == Merged(fa, other)
  {
    var merged := fa;

    if fa.viewerRequest.Some? && other.viewerRequest.Some? {
      var mine, theirs := fa.viewerRequest.value, other.viewerRequest.value;
      if mine.arn != theirs.arn {
        return Err(ConflictingAssociations);
      }
      if mine.functionType != theirs.functionType {
        return Err(ConflictingAssociations);
      }
      if mine.includeBody != theirs.includeBody {
        return Err(ConflictingAssociations);
      }
    } else if other.viewerRequest.Some? {
      merged := merged.(viewerRequest := other.viewerRequest);
    }

    if fa.viewerResponse.Some? && other.viewerResponse.Some? {
      var mine, theirs := fa.viewerResponse.value, other.viewerResponse.value;
      if mine.arn != theirs.arn {
        return Err(ConflictingAssociations);
      }
      if mine.functionType != theirs.functionType {
        return Err(ConflictingAssociations);
      }
    } else if other.viewerResponse.Some? {
      merged := merged.(viewerResponse := other.viewerResponse);
    }

    if fa.originRequest.Some? && other.originRequest.Some? {
      var mine, theirs := fa.originRequest.value, other.originRequest.value;
      if mine.arn != theirs.arn {
        return Err(ConflictingAssociations);
      }
      if mine.includeBody != theirs.includeBody {
        return Err(ConflictingAssociations);
      }
    } else if other.originRequest.Some? {
      merged := merged.(originRequest := other.originRequest);
    }

    if fa.originResponse.Some? && other.originResponse.Some? {
      if fa.originResponse.value.arn != other.originResponse.value.arn {
        return Err(ConflictingAssociations);
      }
    } else if other.originResponse.Some? {
      merged := merged.(originResponse := other.originResponse);
    }

    return Ok(merged);
  }

  /** Everything that a configures, m configures alike. */
  predicate Below(a: FunctionAssociations, m: FunctionAssociations) {
    && (a.viewerRequest.Some? ==> m.viewerRequest == a.viewerRequest)
    && (a.viewerResponse.Some? ==> m.viewerResponse == a.viewerResponse)
    && (a.originRequest.Some? ==> m.originRequest == a.originRequest)
    && (a.originResponse.Some? ==> m.originResponse == a.originResponse)
  }

  /** A merge is the least configuration above both inputs, and fails exactly when there is none above both. */
  lemma MergeIsLeastUpperBound(a: FunctionAssociations, b: FunctionAssociations)
    ensures Merged(a, b).Ok? <==> exists m :: Below(a, m) && Below(b, m)
    ensures Merged(a, b).Ok? ==>
      var j := Merged(a, b).value;
      Below(a, j) && Below(b, j) && forall m :: Below(a, m) && Below(b, m) ==> Below(j, m)
  {
    if Compatible(a, b) {
      assert Below(a, Joined(a, b)) && Below(b, Joined(a, b));
    }
  }

  function AndThen(r: Result<FunctionAssociations>, other: FunctionAssociations): Result<FunctionAssociations> {
    if r.Ok? then Merged(r.value, other) else r
  }

  /** Merging is a partial idempotent commutative monoid. */
  lemma MergeLaws(a: FunctionAssociations, b: FunctionAssociations, c: FunctionAssociations)
    ensures Merged(a, a) == Ok(a)
    ensures Merged(a, EMPTY) == Ok(a) == Merged(EMPTY, a)
    ensures Merged(a, b) == Merged(b, a)
    ensures AndThen(Merged(a, b), c) == AndThen(Merged(b, c), a)
  {
    if Compatible(a, b) && Compatible(b, c) && Compatible(a, c) {
      assert Joined(Joined(a, b), c) == Joined(Joined(b, c), a);
    }
  }

  /** The request function of a, if any, has the type of b's response function, if any. */
  predicate RequestFits(a: FunctionAssociations, b: FunctionAssociations) {
    a.viewerRequest.Some? && b.viewerResponse.Some? ==>
      a.viewerRequest.value.functionType == b.viewerResponse.value.functionType
  }

  /** A merge of valid associations keeps the rules on single slots, and is valid if and only if the inputs fit. */
  lemma MergeOfValid(a: FunctionAssociations, b: FunctionAssociations)
    requires Validate(a) && Validate(b) && Merged(a, b).Ok?
    ensures SlotsValid(Merged(a, b).value)
    ensures Validate(Merged(a, b).value) <==> RequestFits(a, b) && RequestFits(b, a)
  {
  }

  /** It breaks it when one side brings the request function and the other a response function of another type. */
  lemma MergeMayMixViewerTypes()
    ensures exists a, b :: Validate(a) && Validate(b) && Merged(a, b).Ok? && !Validate(Merged(a, b).value)
  {
    var a := EMPTY.(viewerRequest := Some(ViewerRequestFunction("request", TYPE_CLOUDFRONT, false)));
    var b := EMPTY.(viewerResponse := Some(ViewerFunction("response", TYPE_EDGE)));
    assert !ViewersCompatible(Joined(a, b));
    assert Validate(a) && Validate(b) && Merged(a, b) == Ok(Joined(a, b));
  }
}
