# Ingestion and question-answering pipeline: a verified model of its deterministic core

The system loads a PDF, splits it into chunks and stores them in a PGVector
collection. It then answers questions in Portuguese: it retrieves the most
similar chunks, joins them into a context and fills a fixed prompt template
that tells the language model to answer only from that context. Most of the
work is delegated to LangChain, OpenAI and PostgreSQL. This project models the
deterministic steps between those calls and proves their properties in Dafny:

- **Configuration getters** (`results.dfy`, `environment.dfy`, `ingest.dfy`,
  `chat.dfy`). The environment is a `map<string, string>`. Each getter returns
  `Ok(value)`, or `Err` with the message of the `RuntimeError` the program
  raises when the variable is unset or empty.
- **Chunk normaliser** (`ingest.dfy`, `decimal.dfy`). Chunks are `Document`
  values (page text plus a metadata map). Normalisation drops metadata
  entries whose value is `""` or `None` and numbers the chunks `doc-0`,
  `doc-1`, … The decimal rendering of the position comes with a parser that
  inverts it, so the ids are proved pairwise distinct.
- **Context assembler** (`search.py`'s `search_result_to_context`, in
  `search.dfy`). The context is the newline join of the retrieved page texts,
  in result order. A separator-aware `Split` is its inverse on newline-free
  contents.
- **Prompt builder** (`search_prompt` and `PROMPT_TEMPLATE`, in `search.dfy`).
  `str.format` is modelled on a template of text pieces and named fields.
  `PROMPT_TEMPLATE` is the character-exact Portuguese text split at its two
  fields, `{contexto}` and `{pergunta}`.
- **Chat session** (`chat.py`'s `main`, in `chat.dfy`). `Chat.RunChat` is an
  imperative loop over a finite sequence of inputs. It is proved equal to the
  recursive specification `Chat.ChatSession`. Retrieval and the chat model are
  function parameters that return a result or an error. The session ends in
  one of three ways: the exit sentinel (`Terminated`), the end of input
  (`InputExhausted`, Python's `EOFError` from `input()`), or the first failing
  call (`Failed`). A failing call ends the whole session, because the loop
  catches no exception.

The loop calls the prompt builder exactly as `chat.py:38` does:
`search_prompt(context, question)`. The declared parameter order is
`(question, context)`, so the retrieved context lands in the `{pergunta}`
slot and the question in `{contexto}`. The session model keeps this
behaviour, and "## Findings" records it.

## Model

| member | source | states |
|---|---|---|
| `Environment.RequireEnv` | challenge/ingestao-busca/src/ingest.py:25-28 | succeeds iff the variable is present and non-empty; the value is returned unchanged; otherwise the error is "Environment variable NAME is not set!" |
| `Ingest.GetPdfPath` | challenge/ingestao-busca/src/ingest.py:14-28 | fails iff PDF_PATH is absent or `""`, with the source's message; otherwise returns PDF_PATH's value unchanged |
| `Ingest.GetEmbeddingModelName` | challenge/ingestao-busca/src/ingest.py:30-48 | same, for OPENAI_EMBEDDING_MODEL |
| `Ingest.GetCollectionName` | challenge/ingestao-busca/src/ingest.py:50-66 | same, for PG_VECTOR_COLLECTION_NAME |
| `Ingest.GetDbConnection` | challenge/ingestao-busca/src/ingest.py:68-82 | same, for DATABASE_URL |
| `Chat.GetChatModelName` | challenge/ingestao-busca/src/chat.py:8-22 | same, for OPENAI_CHAT_MODEL |
| `Ingest.CleanMetadata` | challenge/ingestao-busca/src/ingest.py:129-132 | the result is a sub-map of the input with unchanged values, holds no `""` or `None` value, and keeps every other entry |
| `Ingest.CleanMetadataExact` | challenge/ingestao-busca/src/ingest.py:129-132 | a key survives iff its value is neither `""` nor `None`, and a surviving value is unchanged |
| `Ingest.CleanMetadataIdempotent` | challenge/ingestao-busca/src/ingest.py:129-132 | cleaning already-clean metadata changes nothing |
| `Ingest.ChunkId` | challenge/ingestao-busca/src/ingest.py:135 | an id is `doc-` followed by decimal digits only |
| `Ingest.ChunkIdParses` | challenge/ingestao-busca/src/ingest.py:135 | the digits after `doc-` read back as the chunk's position |
| `Ingest.ChunkIdInjective` | challenge/ingestao-busca/src/ingest.py:135 | two positions get the same id iff they are equal |
| `Ingest.ChunkIdExamples` | challenge/ingestao-busca/src/ingest.py:135 | positions 0, 7 and 12 get `doc-0`, `doc-7` and `doc-12` |
| `Ingest.NormalizeDocuments` | challenge/ingestao-busca/src/ingest.py:115-137 | as many documents and ids as inputs; position i keeps input i's page text; its metadata is a clean sub-map of input i's; id i is the id of position i |
| `Ingest.NormalizedMetadataExact` | challenge/ingestao-busca/src/ingest.py:126-134 | output i's metadata holds exactly input i's entries whose value is not `""` or `None`, with the same values; nothing is added |
| `Ingest.NormalizedIdsDistinct` | challenge/ingestao-busca/src/ingest.py:123-135 | the ids of one run are pairwise distinct |
| `Ingest.NormalizeIdempotent` | challenge/ingestao-busca/src/ingest.py:126-137 | normalising the normalised documents again yields the same documents and the same ids |
| `Ingest.SingleChunkExample` | challenge/ingestao-busca/src/ingest.py:126-137 | a single chunk keeps its text, loses its blank metadata and gets the id `doc-0` |
| `Decimal.NatToString` | challenge/ingestao-busca/src/ingest.py:135 | the numeral of `i` in `f"doc-{i}"` is non-empty, all digits, and starts with `0` only for zero |
| `Decimal.ParseNatToString` | challenge/ingestao-busca/src/ingest.py:135 | parsing the numeral of n gives n back |
| `Decimal.NatToStringInjective` | challenge/ingestao-busca/src/ingest.py:135 | two numbers have the same numeral iff they are equal |
| `Search.PageContents` | challenge/ingestao-busca/src/search.py:73 | one content per result, in result order, scores dropped |
| `Search.SearchResultToContext` | challenge/ingestao-busca/src/search.py:62-73 | no results give `""`; a single result gives exactly its page text |
| `Search.JoinLength` | challenge/ingestao-busca/src/search.py:73 | a join of n ≥ 1 parts has the parts' total length plus n − 1 |
| `Search.SplitJoin` | challenge/ingestao-busca/src/search.py:73 | splitting a join of separator-free parts at the separator gives the parts back |
| `Search.JoinSnoc` | challenge/ingestao-busca/src/search.py:73 | joining one more part appends the separator and that part |
| `Search.ContextLength` | challenge/ingestao-busca/src/search.py:73 | for n ≥ 1 results the context length is the sum of the content lengths plus n − 1 |
| `Search.ContextSplitsIntoContents` | challenge/ingestao-busca/src/search.py:73 | when no content holds a newline, splitting the context at newlines gives the contents in result order |
| `Search.ContextAppend` | challenge/ingestao-busca/src/search.py:73 | one more result extends the context by a newline and that result's text, at the end |
| `Search.ContextIgnoresScores` | challenge/ingestao-busca/src/search.py:70-73 | results with the same page texts give the same context, whatever their scores |
| `Search.ContextExample` | challenge/ingestao-busca/src/search.py:73 | contents "A", "B", "C" give "A\nB\nC" |
| `Search.Format` | challenge/ingestao-busca/src/search.py:85-88 | `str.format` succeeds iff every field of the template has an argument; otherwise the error names a missing field |
| `Search.FormatTwoFields` | challenge/ingestao-busca/src/search.py:85-88 | a template of text, field, text, field, text renders as the texts with the two arguments inserted verbatim |
| `Search.SearchPrompt` | challenge/ingestao-busca/src/search.py:75-88 | the prompt is the fixed prefix, then the `contexto` argument, the fixed middle, the `pergunta` argument and the fixed suffix of `PROMPT_TEMPLATE` |
| `Search.PromptLayout` | challenge/ingestao-busca/src/search.py:11-36 | the prompt length is 760 fixed characters (`TemplateFixedLength`) plus both argument lengths, and each argument occupies its own region verbatim |
| `Search.OnlyQuestionRegionChanges` | challenge/ingestao-busca/src/search.py:85-88 | prompts that differ only in the question agree before the question region and after it |
| `Search.PromptKeepsBraces` | challenge/ingestao-busca/src/search.py:85-88 | arguments that look like fields (`{pergunta}`, `{contexto}`) are inserted as typed, not substituted again |
| `Search.TemplateInstructsRefusal` | challenge/ingestao-busca/src/search.py:15-18 | the rules tell the model to answer with the fixed refusal sentence |
| `Search.TemplateFixedLengthValue` | challenge/ingestao-busca/src/search.py:11-36 | the template has 760 characters outside its two fields |
| `Chat.UpperCharTo` | challenge/ingestao-busca/src/chat.py:33 | exactly `s`, `S`, `ſ` upper-case to `S`; `a`, `A` to `A`; `i`, `I`, `ı` to `I`; `r`, `R` to `R` |
| `Chat.SentinelIff` | challenge/ingestao-busca/src/chat.py:33 | an input ends the session iff it has four characters spelling SAIR in any case |
| `Chat.SentinelExamples` | challenge/ingestao-busca/src/chat.py:33 | "sair", "Sair", "SAIR" and "sAiR" end the session; " SAIR", "SAIR ", "SAIR\n", "", "SAI" and "sairr" do not |
| `Chat.FirstSentinel` | challenge/ingestao-busca/src/chat.py:31-35 | the position of the first input that ends the session: no input before it does, and the input there does (unless there is none) |
| `Chat.RunChat` | challenge/ingestao-busca/src/chat.py:25-42 | the loop's recorded turns and the way it ends equal the session specification `ChatSession` |
| `Chat.ConverseShape` | challenge/ingestao-busca/src/chat.py:31-42 | turn k is the turn for input k; no turn runs at or after the first sentinel; the session ends at the sentinel, at the end of input, or at the input whose turn failed; unless a turn failed, there is exactly one turn per input before the first sentinel |
| `Chat.ReliableSession` | challenge/ingestao-busca/src/chat.py:31-42 | with a configured model and no failing call, there is one turn per input before the first sentinel; each turn uses its own question, that question's retrieval and the loop's prompt; the session ends by the sentinel iff one was typed |
| `Chat.ConverseAppend` | challenge/ingestao-busca/src/chat.py:31-39 | no history carries across turns: ordinary inputs followed by more input give the first part's turns followed by the rest's session |
| `Chat.TurnPromptSwapsSlots` | challenge/ingestao-busca/src/chat.py:38 | the loop's prompt puts the question after `CONTEXTO:` and the retrieved context after `PERGUNTA DO USUÁRIO:` |
| `Chat.IntendedTurnPromptSlots` | challenge/ingestao-busca/src/search.py:75-88 | with the declared argument order the context fills `{contexto}` and the question fills `{pergunta}` |
| `Chat.SwappedPromptDiffers` | challenge/ingestao-busca/src/chat.py:38 | when question and context start with different characters, the loop's prompt differs from the intended one |
| `Chat.SwappedPromptExample` | challenge/ingestao-busca/src/chat.py:38 | for "Qual o faturamento?" and one result "2.090.439,49", the question appears under CONTEXTO and the prompt differs from the intended one |

## Findings

| source | as written | input that shows it | evidently intended | confidence | as-written member | corrected member |
|---|---|---|---|---|---|---|
| challenge/ingestao-busca/src/chat.py:38 | `search_prompt(context, question)` against the signature `search_prompt(question, context)` of search.py:75 | question "Qual o faturamento?" with one result whose text is "2.090.439,49": the question is placed under `CONTEXTO:` and the retrieved text under `PERGUNTA DO USUÁRIO:` | the retrieved context in `{contexto}` and the user's question in `{pergunta}` | high; not executed | `Chat.SwappedPromptExample` | `Chat.IntendedTurnPromptSlots` |

The same swapped call appears in the demo block at search.py:97.
`Chat.IntendedTurnPrompt` is the corrected turn prompt. The session model
(`Chat.Step`, `Chat.RunChat`) still uses the call as written, because it
describes what the program does.

## Left out

- PDF loading (`PyPDFLoader`, ingest.py:96): file I/O and a foreign parser.
- Chunk splitting (`RecursiveCharacterTextSplitter`, ingest.py:108-112) is library code. Only its constants (1000 and 150) are visible, so no claim about chunk coverage, size or overlap is modelled.
- Embeddings, PGVector construction, `add_documents` and `similarity_search_with_score` with k = 10 (ingest.py:141-175 and 197-204, search.py:51-60) are network and database calls. Retrieval is the `Retriever` parameter. The at-most-10-results bound is the library's promise and is not modelled.
- Retrieval reads the ingestion getters on every turn. A missing variable there shows up only as a `Retriever` error.
- The `ChatOpenAI` call (chat.py:27, 39) is the `ChatModel` parameter, applied to the model name and the prompt.
- Console I/O is not modelled: clearing the screen, the banner, and printing each question and answer (chat.py:26-30, 34, 40-42). The inputs are a finite sequence.
- `load_dotenv()` at import time (ingest.py:11, search.py:8) is not modelled. The environment map is taken as already loaded.
- `ingest_pdf` (ingest.py:179-204) and the `__main__` blocks (ingest.py:208-210, search.py:92-99) only compose the modelled steps with the external calls above.
- Scores are `real` values and never inspected; floating point is not modelled.
- Metadata is a `map`, so the key order of Python's dictionary is not modelled. Values are limited to `None`, strings, integers, booleans and reals.
- `Search.Format` handles only named fields. It has no `{{`/`}}` escapes, positional fields, attribute access or format specs, and `PROMPT_TEMPLATE` uses none of them.
- `Chat.UpperChar` does not model all of Unicode upper-casing. It maps ASCII letters, `ſ` (U+017F) and `ı` (U+0131) and leaves every other character unchanged. Those are the only non-ASCII characters whose Python upper case is a single letter of SAIR. Python changes other characters too, some into several characters, but none of those results is a piece of "SAIR", so the sentinel verdict is the same.
