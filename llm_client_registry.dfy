/** The registry that picks the LLM client serving a model name. A client is
    its class name and the model names it offers. */
module LlmClientRegistry {
  import opened Wrappers

  datatype Client = Client(className: string, availableLlms: seq<string>)

  /** The message of the `IllegalArgumentException` for an unserved model. */
  function ProviderNotFound(modelName: string): string
  {
    "Provider not found for: " + modelName
  }

  /** The index of the first client from `from` on that offers the model. */
  function FirstOffering(clients: seq<Client>, modelName: string, from: nat): (r: Option<nat>)
    requires from <= |clients|
    ensures r.Some? ==> from <= r.value < |clients| && modelName in clients[r.value].availableLlms
                        && forall j :: from <= j < r.value ==> modelName !in clients[j].availableLlms
    ensures r.None? <==> forall j :: from <= j < |clients| ==> modelName !in clients[j].availableLlms
    decreases |clients| - from
  {
    if from == |clients| then None
    else if modelName in clients[from].availableLlms then Some(from)
    else FirstOffering(clients, modelName, from + 1)
  }

  /** `getForModel`: the first client that offers the model, or the
      exception's message when none does. */
  function GetForModel(clients: seq<Client>, modelName: string): (r: Result<Client, string>)
    ensures r.Failure? <==> forall j :: 0 <= j < |clients| ==> modelName !in clients[j].availableLlms
    ensures r.Failure? ==> r.error == ProviderNotFound(modelName)
    ensures r.Success? ==> modelName in r.value.availableLlms
  {
    var first := FirstOffering(clients, modelName, 0);
    if first.None? then Failure(ProviderNotFound(modelName)) else Success(clients[first.value])
  }

  /** The client `getForModel` returns is the first one offering the model. */
  lemma GetForModelIsFirst(clients: seq<Client>, modelName: string)
    requires GetForModel(clients, modelName).Success?
    ensures exists i :: 0 <= i < |clients| && GetForModel(clients, modelName).value == clients[i]
                        && forall j :: 0 <= j < i ==> modelName !in clients[j].availableLlms
  {
    var i := FirstOffering(clients, modelName, 0).value;
    assert GetForModel(clients, modelName).value == clients[i];
  }

  /** Registering more clients after the existing ones never changes the
      answer for a model an existing client already offers; for any other
      model the answer is the later clients' answer. */
  lemma {:induction false} LaterClientsOnlyFillGaps(earlier: seq<Client>, later: seq<Client>, modelName: string, from: nat)
    requires from <= |earlier|
    ensures FirstOffering(earlier, modelName, from).Some? ==>
              FirstOffering(earlier + later, modelName, from) == FirstOffering(earlier, modelName, from)
    ensures FirstOffering(earlier, modelName, from).None? ==>
              (FirstOffering(earlier + later, modelName, from).None? <==> FirstOffering(later, modelName, 0).None?)
              && (FirstOffering(later, modelName, 0).Some? ==>
                    FirstOffering(earlier + later, modelName, from) == Some(|earlier| + FirstOffering(later, modelName, 0).value))
    decreases |earlier| - from
  {
    var all := earlier + later;
    if from == |earlier| {
      LaterOffset(earlier, later, modelName, 0);
    } else {
      assert all[from] == earlier[from];
      LaterClientsOnlyFillGaps(earlier, later, modelName, from + 1);
    }
  }

  /** Scanning the later clients inside the joined list is scanning them
      alone, shifted by the length of the earlier ones. */
  lemma {:induction false} LaterOffset(earlier: seq<Client>, later: seq<Client>, modelName: string, from: nat)
    requires from <= |later|
    ensures FirstOffering(earlier + later, modelName, |earlier| + from).None? <==> FirstOffering(later, modelName, from).None?
    ensures FirstOffering(later, modelName, from).Some? ==>
              FirstOffering(earlier + later, modelName, |earlier| + from) == Some(|earlier| + FirstOffering(later, modelName, from).value)
    decreases |later| - from
  {
    if from < |later| {
      assert (earlier + later)[|earlier| + from] == later[from];
      LaterOffset(earlier, later, modelName, from + 1);
    }
  }

  /** The same statement on `getForModel`. */
  lemma EarlierClientWins(earlier: seq<Client>, later: seq<Client>, modelName: string)
    ensures GetForModel(earlier, modelName).Success? ==> GetForModel(earlier + later, modelName) == GetForModel(earlier, modelName)
    ensures GetForModel(earlier, modelName).Failure? ==> GetForModel(earlier + later, modelName) == GetForModel(later, modelName)
  {
    LaterClientsOnlyFillGaps(earlier, later, modelName, 0);
    var f := FirstOffering(later, modelName, 0);
    if FirstOffering(earlier, modelName, 0).None? && f.Some? {
      assert (earlier + later)[|earlier| + f.value] == later[f.value];
    }
  }
}
