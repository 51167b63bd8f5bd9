/** The ownership guard `verifyOwner` (server.ts:156-162): look a document up in one
    collection and hand it out only to the caller whose id it carries. */
module Ownership {

  datatype Checked<D> = Found(doc: D) | Denied(status: int, message: string)

  function VerifyOwner<D>(docs: map<string, D>, ownerOf: D -> string, caller: string, id: string): (r: Checked<D>)
    ensures id !in docs <==> r == Denied(404, "Not found")
    ensures (id in docs && ownerOf(docs[id]) != caller) <==> r == Denied(403, "Forbidden")
    ensures r.Found? <==> id in docs && ownerOf(docs[id]) == caller
    ensures r.Found? ==> r.doc == docs[id]
  {
    if id !in docs then Denied(404, "Not found")
    else if ownerOf(docs[id]) != caller then Denied(403, "Forbidden")
    else Found(docs[id])
  }

  /** The answer depends only on the requested document: no other document of the
      collection is ever handed out or consulted. */
  lemma VerifyOwnerLocal<D>(docs: map<string, D>, docs': map<string, D>, ownerOf: D -> string, caller: string, id: string)
    requires (id in docs) == (id in docs')
    requires id in docs ==> docs[id] == docs'[id]
    ensures VerifyOwner(docs, ownerOf, caller, id) == VerifyOwner(docs', ownerOf, caller, id)
  {
  }
}
