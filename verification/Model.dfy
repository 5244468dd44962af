/** The value types shared by the compiler from Ingresses to distributions. */
module Model {

  datatype Option<+T> = None | Some(value: T)

  datatype Result<+T> = Ok(value: T) | Err(error: Error)

  datatype Error =
    | ConflictingAssociations
    | ConflictingWebACL
    | ConflictingOrigins
    | InvalidAssociations

  /** The four implementations of the `Function` interface. */
  datatype Function =
    | RequestCloudfront(arn: string, eventType: string)
    | RequestEdge(arn: string, eventType: string, includeBody: bool)
    | ResponseCloudfront(arn: string, eventType: string)
    | ResponseEdge(arn: string, eventType: string)
  {
    predicate IsEdge() {
      RequestEdge? || ResponseEdge?
    }
  }

  datatype Behavior = Behavior(pathPattern: string, originHost: string, functions: seq<Function>)

  datatype OAC = OAC(id: string, name: string, originName: string)

  const NO_OAC := OAC("", "", "")

  datatype Origin = Origin(host: string, behaviors: seq<Behavior>, responseTimeout: int, access: string, oac: OAC) {
    predicate IsBucketBased() {
      access == ACCESS_BUCKET
    }

    /** Equal in everything the configuration of an origin depends on, behaviors aside. */
    predicate HasEqualParameters(other: Origin) {
      host == other.host && responseTimeout == other.responseTimeout && access == other.access && oac == other.oac
    }
  }

  const ACCESS_PUBLIC := "Public"
  const ACCESS_BUCKET := "Bucket"

  /** The members of a sequence are its last element and the members before it. */
  lemma LastMember<T>(s: seq<T>, x: T)
    requires s != []
    ensures x in s <==> x in s[..|s| - 1] || x == s[|s| - 1]
  {
    assert s == s[..|s| - 1] + [s[|s| - 1]];
  }

  lemma SameElements<T>(s: seq<T>, t: seq<T>)
    requires |s| == |t| && forall k :: 0 <= k < |s| ==> s[k] == t[k]
    ensures s == t
  {
  }
}
