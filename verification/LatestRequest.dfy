/**
 * Latest-request-wins (latestRequestCoordinator.js): beginning a request aborts the one before
 * it, and only the last one begun, under its own scope, counts as current.
 */
module LatestRequest {

  class Request {
    const id: nat
    const scopeKey: string
    var aborted: bool        // the abort flag of the request's signal

    constructor (id: nat, scopeKey: string)
      ensures this.id == id && this.scopeKey == scopeKey && !aborted
    {
      this.id, this.scopeKey, aborted := id, scopeKey, false;
    }
  }

  class Coordinator {
    var sequence: nat
    var currentRequest: Request?
    ghost var issued: set<Request>   // every request ever handed out

    ghost predicate Valid()
      reads this, issued
    {
      && (currentRequest != null ==> currentRequest in issued && !currentRequest.aborted)
      && (forall r <- issued :: r.id <= sequence && (r != currentRequest ==> r.aborted))
      && (forall r <- issued, q <- issued :: r.id == q.id ==> r == q)
    }

    constructor ()
      ensures Valid() && issued == {} && sequence == 0 && currentRequest == null
    {
      sequence, currentRequest, issued := 0, null, {};
    }

    /** Every earlier request is aborted, for good; the new one is current under its scope. */
    method Begin(scopeKey: string) returns (request: Request)
      requires Valid()
      modifies this, issued
      ensures Valid() && fresh(request) && issued == old(issued) + {request}
      ensures sequence == old(sequence) + 1 && request.id == sequence
      ensures request.scopeKey == scopeKey && currentRequest == request
      ensures forall r <- old(issued) :: r.aborted
    {
      if currentRequest != null {
        currentRequest.aborted := true;
      }
      sequence := sequence + 1;
      request := new Request(sequence, scopeKey);
      currentRequest := request;
      issued := issued + {request};
    }

    /** Of the requests handed out, at most the last one begun is current. */
    predicate IsCurrent(request: Request?, scopeKey: string)
      requires Valid()
      reads this, issued, request
      ensures request in issued ==>
        (IsCurrent(request, scopeKey) <==> request == currentRequest && request.scopeKey == scopeKey)
    {
      && request != null
      && currentRequest != null
      && request.id == currentRequest.id
      && request.scopeKey == scopeKey
      && !request.aborted
    }

    method Cancel()
      requires Valid()
      modifies this, issued
      ensures Valid() && issued == old(issued) && sequence == old(sequence) + 1
      ensures currentRequest == null && forall r <- issued :: r.aborted
    {
      if currentRequest != null {
        currentRequest.aborted := true;
      }
      currentRequest := null;
      sequence := sequence + 1;
    }
  }
}
