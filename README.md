# RAG assistant core, modelled in Dafny

This project models the deterministic core of `RAGAssistant`, the object behind a
retrieval-augmented question-answering assistant. The assistant loads a JSON
knowledge base, flattens each item into the text of a document, and indexes the
documents in a vector store. It then answers questions through a conversational
retrieval chain built on that store.

The model covers three parts:

- **The content extractor** (`_extract_content_from_item`). A JSON item becomes
  one flat string. Each object member gives a `key: value` part, and the parts are
  joined with `" | "`. A list is comma-joined. A nested object is extracted
  recursively and kept only when its text is non-empty. A top-level scalar reads
  `Content: …` and a top-level list reads `Items: …`.
- **The document builder** (the loops of `load_json_knowledge_base`). A top-level
  list gives documents whose source is `document_<i>` and whose item id is `<i>`.
  A top-level object gives documents whose source and item id are both the key.
  An item whose extraction is empty gives no document.
- **The assistant object**. Its fields are the vector store, the conversation
  chain and the conversation memory. The chain exists only after a store was
  created or loaded. `get_response` returns a fixed message until the chain
  exists, and it turns exceptions into an apology. `clear_memory` empties the
  memory.

Files:

- `text.dfy` (module `Text`): `sep.join` and the decimal `str(n)`, with a
  round-trip proof for the decimal rendering.
- `json_value.dfy` (module `JsonValue`): the parsed JSON value, and Python's
  `str`/`repr` of it.
- `wrappers.dfy` (module `Wrappers`): `Option` and `Result`.
- `extractor.dfy` (module `Extractor`): the specification `Extract`, the
  imperative `ExtractContent`, and lemmas about them.
- `knowledge_base.dfy` (module `KnowledgeBase`): the specification `Documents`,
  the imperative `BuildDocuments`, and lemmas about them.
- `assistant.dfy` (module `Assistant`): the class `RAGAssistant` and the source
  collection loop.

Python's `isinstance(True, int)` is true, so booleans take the scalar branch and
render as `True`/`False`. `null` is skipped inside objects, and a top-level `null`
extracts to `""`. List elements are rendered with Python's `str`, so a nested
container inside a list shows as its `repr`.

One might expect an item to extract to `""` exactly when it has no scalar
leaves. The code does something else, and this model follows the code.
An empty list still contributes: `{"tags": []}` extracts to `tags: `, and a
top-level `[]` extracts to `Items: `. `Extractor.ExtractEmptyIff` states the exact
condition: the item is `null`, or an object whose members are all `null` or
objects of the same kind.

## Model

| member | source | states |
|---|---|---|
| `Extractor.ExtractContent` | src/rag_assistant.py:105-126 | The loop over an object's members appends one part per contributing member and recurses into nested objects. The final join gives exactly `Extract(item)`. |
| `Extractor.ExtractEmptyIff` | src/rag_assistant.py:109-126 | The extraction is `""` exactly when the item is `null`, or an object whose members are all `null` or such objects. So every scalar, every list (even `[]`) and every object holding a scalar or a list produces text. |
| `Extractor.ExtractConcat` | src/rag_assistant.py:109-126 | Members `p` followed by members `q` extract to the text of `p`, then the part separator, then the text of `q`. The separator appears only when both are non-empty. So an object gives one part per contributing key, in key order. |
| `Extractor.ExtractSnoc` | src/rag_assistant.py:110-118 | Appending a member to an object adds that member's part, if it has one, after the existing text, with the part separator between them when both are non-empty. |
| `Extractor.SingleMember` | src/rag_assistant.py:111-118 | A member holding a string, int, float or bool gives `key: str(value)`. A list gives `key: ` followed by its elements joined with `", "`, so `[]` gives `key: `. A nested object gives `key: nested` when `nested` is non-empty and nothing otherwise. `null` gives nothing. |
| `Extractor.ObjPartsNonEmpty` | src/rag_assistant.py:110-118 | Every part an object produces is non-empty, and an object gives at most one part per member. |
| `Extractor.PartsOfAppend` | src/rag_assistant.py:110-118 | The parts of concatenated members are the parts of the first members followed by the parts of the others. |
| `Text.JoinAppend` | src/rag_assistant.py:126 | Joining a concatenation of part lists joins each list, with one separator between them when both lists are non-empty. |
| `Text.JoinEmptyIff` | src/rag_assistant.py:126 | Joining non-empty parts gives `""` exactly when there are no parts. |
| `Text.DigitsRoundTrip` | src/rag_assistant.py:84 | Reading back the decimal text `str(i)` of an index gives the index. |
| `Text.NatToStringInjective` | src/rag_assistant.py:84 | Different indices have different decimal texts. |
| `KnowledgeBase.BuildDocuments` | src/rag_assistant.py:76-99 | The loops over the items or members build exactly `Documents(data)`. |
| `KnowledgeBase.LoadJsonKnowledgeBase` | src/rag_assistant.py:70-103 | A parse failure is re-raised unchanged. A parsed value gives its documents. |
| `KnowledgeBase.KeptSpec` | src/rag_assistant.py:79-81 | The surviving positions are exactly the positions with non-empty extraction. Each appears once, in increasing order, and there are at most as many as there are items. |
| `KnowledgeBase.ListDocsShape` | src/rag_assistant.py:78-86 | A top-level list gives one document per item with non-empty extraction, in item order. Each document holds that item's extraction, source `document_<i>` and item id `<i>`, where `i` is the item's original position. |
| `KnowledgeBase.ObjDocsShape` | src/rag_assistant.py:88-96 | A top-level object gives one document per member with non-empty extraction, in key order. Each document's source and item id are both the key. |
| `KnowledgeBase.DocumentsNonEmpty` | src/rag_assistant.py:76-99 | Every document has non-empty content. There are never more documents than items or members, so an empty list or object gives none. A top-level scalar or `null` gives no documents. |
| `KnowledgeBase.ListSourcesDistinct` | src/rag_assistant.py:79-86 | The documents built from a list have pairwise distinct sources and pairwise distinct item ids. |
| `KnowledgeBase.ObjSourcesDistinct` | src/rag_assistant.py:88-96 | For an object with distinct keys, as every parsed dictionary has, the documents have pairwise distinct sources and item ids. |
| `KnowledgeBase.NameDescRecord` | src/rag_assistant.py:109-112 | A record `{"name": n, "desc": d}` extracts to its `name` part, the part separator, then its `desc` part. |
| `KnowledgeBase.TwoRecordList` | src/rag_assistant.py:78-86 | A list of two such records gives two documents, numbered 0 and 1, in order. |
| `Assistant.CollectSources` | src/rag_assistant.py:197-201 | The result has exactly one source per returned document, in order: the document's `source` entry, or `Unknown` when it has none. There are no sources when the result carries no source documents. |
| `Assistant.RAGAssistant.constructor` | src/rag_assistant.py:27-59 | Construction needs a non-empty API key. It starts with no vector store, no chain and an empty memory. |
| `Assistant.RAGAssistant.History` | src/rag_assistant.py:54-59 | The chain is shown the last five turns of memory, or all of them when there are fewer, in order. |
| `Assistant.RAGAssistant.SetupConversationChain` | src/rag_assistant.py:161-187 | A new chain is bound to the current vector store. |
| `Assistant.RAGAssistant.CreateVectorstore` | src/rag_assistant.py:128-145 | A failed build changes nothing and reports the error. A successful build assigns the new store. The store is saved only when a non-empty path is given. A failed save reports its error and keeps the previous chain. Otherwise a chain is bound to the new store. |
| `Assistant.RAGAssistant.LoadVectorstore` | src/rag_assistant.py:147-159 | A failed load changes nothing and reports the error. A successful load assigns the store and binds a chain to it. |
| `Assistant.RAGAssistant.GetResponse` | src/rag_assistant.py:189-208 | Without a chain, the reply is the fixed "not loaded yet" message with no sources, and the chain is not called. With a chain, the chain is called once, and it is only ever called when a vector store is in place. An exception becomes the apology followed by its message, with no sources and memory unchanged. An answer comes back with one source per returned document, and the turn is saved to memory. |
| `Assistant.RAGAssistant.ClearMemory` | src/rag_assistant.py:210-213 | Memory becomes empty. The vector store and the chain do not change. |

## Left out

- Reading the file and `json.load` (src/rag_assistant.py:73-74) are I/O. The builder takes an already-parsed value, and a parse failure is an `Err` passed in.
- The embedding service, FAISS building, saving and loading, the text splitter, and `ConversationalRetrievalChain` are foreign libraries and services. They are oracle parameters: `build`, `save`, `load` and `ask`. Chunking, overlap and index round-trips belong to those libraries and are not claimed.
- Logging (src/rag_assistant.py:68, 98, 102, 132, 138, 141, 144, 156, 158, 203, 207, 213) is left out, because it has no effect on results.
- Environment-variable defaults are left out: the key fallback to `GOOGLE_API_KEY`, model names, temperature, chunk sizes and `RETRIEVAL_K`. The API-key `ValueError` is modelled as the constructor's precondition.
- The prompt template text (src/rag_assistant.py:163-173) is a constant with no logic.
- `_setup_conversation_chain` is modelled as never failing. A bad `RETRIEVAL_K` value, which would make it raise, is configuration.
- `Assistant.RAGAssistant.History`: the five-turn window follows the configured `k=5`. The window's eviction is code in `ConversationBufferWindowMemory`, which is not part of this model. So memory holds every saved turn, and only the view is windowed.
- `Assistant.RAGAssistant.GetResponse`: saving the turn on success and not saving it on an exception is how the chain uses its memory. That behaviour is library code and is modelled, not proved. An exception raised after the chain has saved its turn is not modelled.
- `JsonValue.PyRepr`: a string nested inside a list is quoted as `'s'` without Python's choice of quote character or escaping. A float carries its own `repr` text instead of being rendered.
- The `identifier` argument of `_extract_content_from_item` is never used by the code, so the model drops it.
- src/interface.py, src/callback_handler.py, app.py and src/init.py are not part of this model. They cover the UI, logging, server startup and re-exports.
