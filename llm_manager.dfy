/** services/llm_manager.py reduced to what retrieval depends on: whether a
    model is loaded. Whether `LlamaCpp(...)` succeeds is an input. */
module Llm {

  class LlmManager {
    var llmLoaded: bool
    var llmLoadFailed: bool

    /** `__init__`: nothing loaded, then one `load_llm` attempt. */
    constructor (available: bool)
      ensures llmLoaded == available && llmLoadFailed == !available
    {
      llmLoaded := false;
      llmLoadFailed := false;
      new;
      LoadLlm(available);
    }

    /** `load_llm`: a no-op once a model is loaded; otherwise one attempt whose
        outcome is `available`, recorded in `llm_load_failed`. */
    method LoadLlm(available: bool)
      modifies this
      ensures old(llmLoaded) ==> llmLoaded && llmLoadFailed == old(llmLoadFailed)
      ensures !old(llmLoaded) ==> llmLoaded == available && llmLoadFailed == !available
    {
      if llmLoaded {
        return;
      }
      llmLoaded := available;
      llmLoadFailed := !available;
    }
  }
}
