# A verified model of the engine's SPIR-V reflection, hashing and renderer bookkeeping

This project models, in Dafny, the parts of the engine that decide things from
their inputs alone:

- **`Spirvflect`** (`src/spirvflect.h`): the reflection decoder that walks a
  SPIR-V module word by word. It collects names, decorations, types, constants
  and uniform blocks, and reports the block of every uniform variable of
  struct type.
- **`SpirvAnalyzer`** (`src/spirvanalyzer.h`): the earlier two-pass decoder.
  Pass 1 splits the module into instruction records. Pass 2 collects names and
  the Location, Binding and DescriptorSet decorations of each id.
- **`Hash` and `Guid`** (`src/common.cpp`): `murmur32` (MurmurHash2),
  `murmur64` (MurmurHash64A on signed integers), `bernstein_ci`, `isguid`, and
  the hexadecimal encoding of `generate`.
- **Vertex declarations and resource handles** of the four renderer back
  ends:
  - the attribute mask and its duplicate test;
  - packed attribute offsets and the stride;
  - the packed 64-bit handles of the two Vulkan back ends, and their tag
    checks;
  - the 1-based handles of the OpenGL and Direct3D 11 back ends;
  - `findMemoryType` and the queue-family choice;
  - the OpenGL back end's pending declaration and its cache of enabled
    attribute arrays.

Each C++ class whose fields change becomes a Dafny `class` with those fields:
`stream_view`, `SpvStorage`, and the four renderers. Each loop becomes a
`method` whose loop invariants prove it against a specification function.
The properties of those functions are lemmas.

## Conventions

- **Buffers.** Byte buffers are `seq<byte>`. Words are read little-endian.
- **Fixed-width integers.** They are `int` subset types. The source's
  wrap-around is written out with `%`.
- **Outcomes.** Operations that can misbehave return an `Exec` value:
  - `Undefined` for behaviour the C++ standard leaves undefined: reads past
    a buffer, an index outside a vector, an overflowing fixed array, or
    reading a union member that was not written;
  - `Aborted` for a failed `assert(false)` (a debug build) or a thrown
    exception;
  - `Done(value)` otherwise.
- **Foreign calls.** The objects the graphics APIs create are parameters.
  What the renderers issue to the API is a trace field (`commands` or
  `calls`).

## Model

| member | source | states |
|---|---|---|
| Memory.CString | src/spirvflect.h:208 | The text at a position is copied out of the buffer: it holds no NUL, lies inside the buffer and matches its bytes |
| Memory.CStringUpTo | src/spirvflect.h:208 | The copied text is exactly the run of non-NUL bytes up to the first NUL or the end of the buffer |
| Spirvflect.StreamView.constructor | src/spirvflect.h:51-53 | A view starts at the beginning of the buffer |
| Spirvflect.StreamView.Read | src/spirvflect.h:54-56 | `read<uint32_t>` gives the little-endian word under the cursor, or undefined past the end; the cursor always moves 4 bytes |
| Spirvflect.StreamView.ReadInstruction | src/spirvflect.h:171 | The instruction header gives the opcode (low half) and word count (high half) of one word, or undefined past the end |
| Spirvflect.StreamView.Seek | src/spirvflect.h:60 | `seek` puts the cursor at the given byte offset |
| Spirvflect.Storage.constructor | src/spirvflect.h:136-156 | The four tables start empty |
| Spirvflect.Storage.AddDecor | src/spirvflect.h:139 | `add_decor` is `emplace`: an id already present keeps its record |
| Spirvflect.Storage.GetDecor | src/spirvflect.h:140 | `get_decor` is the record under the id, or null when there is none |
| Spirvflect.Storage.PutDecor | src/spirvflect.h:112-116 | A write through the record pointer replaces that id's record and nothing else |
| Spirvflect.Storage.AddType | src/spirvflect.h:142 | `add_type` is `emplace`: the first type under an id stays |
| Spirvflect.Storage.GetType | src/spirvflect.h:143 | `get_type` is `operator[]`: an unknown id is entered with the default entry, which is returned |
| Spirvflect.Storage.AddConst | src/spirvflect.h:145 | `add_const` is `emplace` |
| Spirvflect.Storage.GetConst | src/spirvflect.h:146 | `get_const` enters and returns the default constant for an unknown id |
| Spirvflect.Storage.AddUbo | src/spirvflect.h:148 | `add_ubo` is `emplace` |
| Spirvflect.Storage.GetUbo | src/spirvflect.h:149 | `get_ubo` is the block under the id, or null |
| Spirvflect.ParseStructType | src/spirvflect.h:348-368 | The struct case of `parse_type` and its field loop yield the outcome and tables of the specification `ParseStruct` |
| Spirvflect.ParseType | src/spirvflect.h:293-396 | `parse_type` yields the outcome, type entry and tables of the specification function of the same name |
| Spirvflect.TypeInstruction | src/spirvflect.h:177-193 | A type instruction reads its result id, parses the type and adds it, as `OnType` says |
| Spirvflect.ConstantInstruction | src/spirvflect.h:195-202 | `OpConstant` as `OnConstant` says |
| Spirvflect.NameInstruction | src/spirvflect.h:205-210 | `OpName` as `OnName` says |
| Spirvflect.MemberNameInstruction | src/spirvflect.h:213-222 | `OpMemberName` as `OnMemberName` says |
| Spirvflect.DecorateInstruction | src/spirvflect.h:225-236 | `OpDecorate` as `OnDecorate` says |
| Spirvflect.MemberDecorateInstruction | src/spirvflect.h:239-249 | `OpMemberDecorate` as `OnMemberDecorate` says |
| Spirvflect.VariableInstruction | src/spirvflect.h:252-283 | `OpVariable` as `OnVariable` says, including what it appends to the output |
| Spirvflect.Execute | src/spirvflect.h:174-284 | The opcode `switch` has the effect of the specification `Execute` on tables and output |
| Spirvflect.Analyze | src/spirvflect.h:160-290 | `analyze` (header check, then the loop that seeks past each instruction by its word count) gives the specification's report |
| SpirvflectSpec.FirstChild | src/spirvflect.h:119-125 | `get_child` answers a child carrying the id |
| SpirvflectSpec.IntKind | src/spirvflect.h:300-305 | Widths 8, 16 and 32 classify as int8, int16 and int32; width 64 falls on float16 |
| SpirvflectSpec.FloatKind | src/spirvflect.h:307-312 | Widths 16 and 32 classify as float16 and float32; width 64 falls on vec2i |
| SpirvflectSpec.VectorKind | src/spirvflect.h:314-326 | Two or three int components give vec3i, four give vec4i; the same for floats; other component kinds are unusable |
| SpirvflectSpec.MatrixKind | src/spirvflect.h:328-337 | Two or three vec3f/vec4f columns give mat3, four give mat4; other column kinds are unusable |
| SpirvflectSpec.OnConstant | src/spirvflect.h:195-202 | Defined exactly when its three operands are in the buffer; the constant gets its type's kind and first value word |
| SpirvflectSpec.OnName | src/spirvflect.h:205-210 | Defined exactly when the id is in the buffer; a named id keeps its record (first name wins); a new id gets a record with the text |
| SpirvflectSpec.OnMemberName | src/spirvflect.h:213-222 | An unnamed parent is left alone; a named parent gets one more child with the member index and text |
| SpirvflectSpec.OnDecorate | src/spirvflect.h:225-236 | Never aborts; an unnamed id changes nothing; a named id gets the decoration's value (last one wins) |
| SpirvflectSpec.OnMemberDecorate | src/spirvflect.h:239-249 | Defined exactly when the parent is named and has the member as a child; the member's decoration is set |
| SpirvflectSpec.OnVariable | src/spirvflect.h:252-283 | Undefined exactly when operands are missing or an input variable is unnamed; a uniform of struct type appends its pointee's block |
| SpirvflectSpec.Execute | src/spirvflect.h:174-285 | Only `OpVariable` changes the output |
| SpirvflectSpec.FramedIndependent | src/spirvflect.h:169-172 | Whether the loop ends depends on the buffer alone, not on what the caller's output vector held |
| SpirvflectProperties.AbortBeforeZeroCount | src/spirvflect.h:388-393 | An instruction that aborts ends the pass: a zero word count on a header after it is never reached, so the stream is admitted and `analyze` aborts |
| SpirvflectProperties.RunNeverRejected | src/spirvflect.h:169-289 | Once the header is accepted, `analyze` never answers false |
| SpirvflectProperties.HeaderDecides | src/spirvflect.h:164-166 | `analyze` answers false exactly when the magic word is not 0x07230203 or the version is not 0x00010000 |
| SpirvflectSpec.ExecuteAppends | src/spirvflect.h:270 | One instruction appends the same blocks, and succeeds alike, whatever the output held |
| SpirvflectProperties.RunAppends | src/spirvflect.h:169-286 | The loop keeps what the output held in front of all it appends |
| SpirvflectProperties.AnalyzeAppends | src/spirvflect.h:160-290 | `analyze` never removes or changes what the caller's vector held |
| SpirvflectProperties.FirstChildIsFirst | src/spirvflect.h:119-125 | `get_child` finds the first child carrying the id, and null exactly when no child carries it |
| SpirvflectProperties.StructFieldsStep | src/spirvflect.h:358-366 | One field of the struct loop: append the field and go on, or stop undefined |
| SpirvflectProperties.StructFieldsDefined | src/spirvflect.h:358-366 | The field loop succeeds exactly when every field is named and its operand is in the buffer, and never aborts |
| SpirvflectProperties.StructFieldsTables | src/spirvflect.h:363 | The field loop only adds default type entries |
| SpirvflectProperties.StructFieldsMeaning | src/spirvflect.h:358-366 | Field k of the block has member child k's name and the kind of operand 1 + k, after the fields already there |
| SpirvflectProperties.StructDefined | src/spirvflect.h:348-368 | A struct succeeds exactly when it is named, has at most 128 fields and all are named and present; otherwise undefined |
| SpirvflectProperties.StructRegistersBlock | src/spirvflect.h:348-368 | A struct of word count n classifies as a structure and registers a block named after it with n - 2 fields in operand order |
| SpirvflectProperties.ParseStructKeeps | src/spirvflect.h:367 | A struct keeps every entry the tables held |
| SpirvflectProperties.ParseTypeKeeps | src/spirvflect.h:293-396 | `parse_type` keeps every entry the tables held |
| SpirvflectProperties.OnTypeKeeps | src/spirvflect.h:189-193 | A type instruction keeps every entry the tables held |
| SpirvflectProperties.OnConstantKeeps | src/spirvflect.h:201 | A constant keeps every entry the tables held |
| SpirvflectProperties.OnNameKeeps | src/spirvflect.h:209 | A name keeps every entry the tables held |
| SpirvflectProperties.OnMemberNameKeeps | src/spirvflect.h:219-221 | A member name keeps every entry the tables held |
| SpirvflectProperties.OnDecorateKeeps | src/spirvflect.h:230-235 | A decoration keeps every entry the tables held |
| SpirvflectProperties.OnMemberDecorateKeeps | src/spirvflect.h:246-248 | A member decoration keeps every entry the tables held |
| SpirvflectProperties.OnVariableKeeps | src/spirvflect.h:258-259 | A variable keeps every entry the tables held |
| SpirvflectProperties.ExecuteKeeps | src/spirvflect.h:139-149 | Every instruction keeps the first definition of each type, constant, block and name |
| SpirvflectProperties.AbortsOnlyOnUnhandledTypes | src/spirvflect.h:388-393 | Only `OpTypeBool` and `OpTypeRuntimeArray` reach the failed assertion of `parse_type` |
| SpirvflectProperties.ArrayAndPointerTypes | src/spirvflect.h:339-346 | An array is its element's entry with the count set to the constant's value; a pointer is its pointee's entry with the pointee id; unknown ids give default entries |
| SpirvflectProperties.UseBeforeDefinitionSticks | src/spirvflect.h:319 | A vector over a not yet defined component enters a default entry, so a later definition of the component is ignored |
| SpirvAnalyzer.StreamView.constructor | src/spirvanalyzer.h:89 | A view starts at the beginning of the buffer |
| SpirvAnalyzer.StreamView.Shift | src/spirvanalyzer.h:91 | `shift<T>` steps over the bytes without reading them |
| SpirvAnalyzer.StreamView.ReadWord | src/spirvanalyzer.h:93 | Reading a word gives the word under the cursor, or undefined past the end; the cursor moves 4 bytes |
| SpirvAnalyzer.StreamView.Read | src/spirvanalyzer.h:93 | `read` gives the bytes under the cursor, undefined past the end; the cursor moves by the size |
| SpirvAnalyzer.StreamView.Seek | src/spirvanalyzer.h:96 | `seek` puts the cursor at the given offset from the start |
| SpirvAnalyzer.CopyInto | src/spirvanalyzer.h:160 | Copying into `buff` succeeds exactly when the bytes fit; the copy overwrites the front and keeps the rest |
| SpirvAnalyzer.Strlen | src/spirvanalyzer.h:161 | `strlen` gives the index of the first NUL; with no NUL in the array it is undefined |
| SpirvAnalyzer.ReadName | src/spirvanalyzer.h:150-161 | A name is undefined when its byte count exceeds 64 or runs past the buffer; otherwise the text up to its first NUL |
| SpirvAnalyzer.NameCase | src/spirvanalyzer.h:155-166 | The name case has the effect of `ApplyName` |
| SpirvAnalyzer.MemberNameCase | src/spirvanalyzer.h:168-177 | The member-name case has the effect of `ApplyMemberName` |
| SpirvAnalyzer.DecorateCase | src/spirvanalyzer.h:179-192 | The decorate case has the effect of `ApplyDecorate` |
| SpirvAnalyzer.Revisit | src/spirvanalyzer.h:151-244 | One turn of pass 2 has the effect of `Apply` |
| SpirvAnalyzer.Analyze | src/spirvanalyzer.h:122-247 | `analyze` gives the specification's verdict |
| SpirvAnalyzerSpec.NameBytesOdd | src/spirvanalyzer.h:160 | A name's byte count `4 * size - 1` is 3 modulo 4 |
| SpirvAnalyzerProperties.HeaderDecides | src/spirvanalyzer.h:126-128 | `analyze` answers false exactly when the magic word, or then the version, is wrong; otherwise it can only fault |
| SpirvAnalyzerProperties.AdvanceIsSkipped | src/spirvanalyzer.h:140-145 | Pass 1 records `count - 1` and skips exactly that many words |
| SpirvAnalyzerProperties.SplitLayout | src/spirvanalyzer.h:136-146 | Records start after their header, each next one 4 * size + 4 bytes after its predecessor, and the last reaches the end |
| SpirvAnalyzerProperties.SplitWholeWords | src/spirvanalyzer.h:136-146 | Pass 1 never faults on a whole number of words |
| SpirvAnalyzerProperties.NameBounds | src/spirvanalyzer.h:150-173 | A name fits `buff` exactly for 1 to 16 words after the header |
| SpirvAnalyzerProperties.PointerBounds | src/spirvanalyzer.h:212-218 | A pointer type of more than four words overflows `tokens[4]` |
| SpirvAnalyzerProperties.DecorateWraps | src/spirvanalyzer.h:185 | Fewer than two words after the header make `size - 2` wrap, so the reads run off the buffer |
| SpirvAnalyzerProperties.ReadOnlyRecords | src/spirvanalyzer.h:194-243 | Member decorations, pointers, structs and variables leave the map as it is and never abort |
| SpirvAnalyzerProperties.ApplyGrows | src/spirvanalyzer.h:153-244 | One record never drops an id or renames one, and keeps every entry well formed |
| SpirvAnalyzerProperties.CollectGrows | src/spirvanalyzer.h:148-245 | The whole of pass 2 never drops an id or renames one, and keeps every entry well formed |
| SpirvAnalyzerProperties.AcceptedWellFormed | src/spirvanalyzer.h:163-165 | Every id collected carries a non-empty name under its own key |
| SpirvAnalyzerProperties.FirstNameWins | src/spirvanalyzer.h:163-165 | The first non-empty name given to an id stays for the rest of pass 2 |
| SpirvAnalyzerProperties.ApplyKeepsField | src/spirvanalyzer.h:179-192 | A record that does not decorate an id with a kind leaves that field, or UINT32_MAX for a new id |
| SpirvAnalyzerProperties.CollectKeepsField | src/spirvanalyzer.h:148-245 | The same over the rest of pass 2 |
| SpirvAnalyzerProperties.SentinelStays | src/spirvanalyzer.h:113-117 | A decoration nothing sets reads UINT32_MAX |
| SpirvAnalyzerProperties.LastDecorationWins | src/spirvanalyzer.h:185-191 | The last record to decorate an id with a kind leaves its last literal word in the field |
| Hash.Murmur32 | src/common.cpp:184-227 | The loop over 4-byte blocks, the tail `switch` and the final mixes compute MurmurHash2 of the bytes |
| Hash.Murmur32Below | src/common.cpp:226 | The result fits 32 bits |
| Hash.Murmur32Empty | src/common.cpp:213-224 | The empty input hashes to the final mixes of the seed |
| Hash.Blocks32Shift | src/common.cpp:197-210 | The block loop over `b` is the same seen at an offset inside `a + b` |
| Hash.Blocks32Append | src/common.cpp:197-210 | The block loop streams: over whole blocks `a` then `b` it is the loop over `a` continued over `b` |
| Hash.Murmur64 | src/common.cpp:230-271 | The loop over 8-byte blocks, the tail and the final mixes compute the signed 64-bit variant |
| Hash.SignedShift | src/common.cpp:245 | The signed `>> 47` agrees with the unsigned shift of reference MurmurHash64A below the top bit, and differs above |
| Hash.Murmur64Empty | src/common.cpp:235 | The empty input hashes to the final mixes of the seed |
| Hash.Blocks64Shift | src/common.cpp:240-250 | The 64-bit block loop seen at an offset |
| Hash.Blocks64Append | src/common.cpp:240-250 | The 64-bit block loop streams over whole 8-byte blocks |
| Hash.BernsteinCi | src/common.cpp:273-282 | The backward loop computes `h = h * 33 ^ tolower(b)` from the last byte to the first |
| Hash.BernsteinEmpty | src/common.cpp:276 | The empty input returns the seed |
| Hash.BernsteinCaseInsensitive | src/common.cpp:279 | Inputs that differ only in the case of ASCII letters hash alike |
| Hash.BernsteinAppend | src/common.cpp:277-280 | The hash of `a + b` continues from the hash of `b` |
| Guid.DigitsInOrder | src/common.cpp:299 | The table `generate` indexes holds the sixteen digits in order |
| Guid.DigitsTable | src/common.cpp:313 | The bytes `strchr` finds in the `isguid` table are exactly the lower-case hex digits |
| Guid.IsGuid | src/common.cpp:310-322 | `isguid` is false on null, and otherwise true exactly when every byte before the NUL is a lower-case hex digit |
| Guid.IsGuidEdgeCases | src/common.cpp:310-322 | The empty string passes and an upper-case digit fails |
| Guid.NibblesOfByte | src/common.cpp:304-305 | The sign of the `char` never shows: the digits are those of the unsigned byte |
| Guid.HexAppend | src/common.cpp:302-306 | Encoding one more byte appends its high then low digit |
| Guid.HexShape | src/common.cpp:302-306 | The encoding is twice as long as its input, made of digits only, and free of NUL |
| Guid.DigitValue | src/common.cpp:299 | A digit's value is its place in the table |
| Guid.HexRoundTrip | src/common.cpp:302-306 | Decoding the digits gives back the bytes they came from |
| Guid.Drawn | src/common.cpp:295-298 | Each random value becomes `rand() % 255` |
| Guid.Draw | src/common.cpp:290-298 | `tmp` holds the 38 drawn values as signed `char`s |
| Guid.PutDigits | src/common.cpp:304-305 | Two digits are written at the pointer and nothing else changes |
| Guid.PutHex | src/common.cpp:302-306 | The loop writes the digits of the first n bytes from `buff[0]` on, and nothing else |
| Guid.Generate | src/common.cpp:288-308 | Defined exactly when `size / 2` is at most 38 and the digits and NUL fit the buffer; then the buffer holds the digits and a NUL |
| Guid.GeneratedIsGuid | src/common.cpp:307 | What `generate` writes passes `isguid` |
| Bits.MaskTest | src/renderer_gl.cpp:341 | `(x & (1 << t)) == (1 << t)` exactly when bit t of x is set |
| Bits.NonZeroTest | src/renderer_vk.cpp:923 | `x & (1 << t)` is non-zero exactly when bit t of x is set |
| Bits.SubsetTest | src/renderer_vk.cpp:120 | `(flags & props) == props` exactly when every bit of props is set in flags |
| VertexLayout.OffsetsFit | src/renderer_vk.cpp:432-439 | Every attribute lies inside the stride |
| VertexLayout.OffsetsOrdered | src/renderer_vk.cpp:432-434 | An attribute ends before any later one starts |
| VertexLayout.OffsetPrefix | src/renderer_vk.cpp:432-434 | An offset depends only on the attributes before it |
| VertexLayout.MaskBits | src/renderer_vk.cpp:427 | Bit k of the mask is set exactly when some attribute has type k |
| VertexLayout.MaskBelow | src/renderer_vk.cpp:416-427 | The mask of valid attributes is below 2^14, so fits the `uint32_t` |
| VertexLayout.Flags | src/renderer_vk.cpp:444 | The mask of a declaration fits the 32-bit userdata |
| VertexLayout.DuplicateTest | src/renderer_vk.cpp:422-423 | `(flags & (1 << type)) == (1 << type)` on the mask so far holds exactly when the type repeats an earlier one |
| VertexLayout.DistinctRepeated | src/renderer_vk.cpp:420-426 | A declaration has no repeats exactly when no attribute repeats an earlier one |
| VertexLayout.DistinctPrefix | src/renderer_vk.cpp:420-426 | A prefix of a declaration without repeats has none |
| VertexLayout.DistinctFits | src/renderer_gl.cpp:129-136 | Without repeats there are at most fourteen attributes |
| ResourceId.FieldsOfMade | src/renderer_vk.cpp:45-69 | `restype`, `internalid` and `userdata` of `makeresourceid(t, i, u)` read back t, i and u; the reserved byte is 0; `makeresource` and `restype` of `src/vkrenderer.h` lay out the same union |
| ResourceId.MadeFromFields | src/vkrenderer.h:232-241 | A handle is one `makeresource` can build exactly when its reserved byte is 0 |
| ResourceId.MakeInjective | src/vkrenderer.h:276-282 | Different fields give different handles |
| ResourceId.ZeroIsInvalid | src/vkrenderer.h:20 | `restype(0)` is the invalid tag, and only all-zero fields make the handle 0 |
| ResourceId.ResolveMade | src/renderer_vk.cpp:442-444 | The handle a `create_*` returns after its push names the element pushed, below 65536 elements |
| ResourceId.ResolveWraps | src/renderer_vk.cpp:444 | The 65536th element gets internalid 0, and looking it up is undefined |
| ResourceId.ResolveZero | src/renderer_vk.cpp:717-720 | The 0 a failed `create_*` returns is ignored by every tag check |
| Vulkan.DescribeVertices | src/renderer_vk.cpp:416-440 | The loop fails exactly on a repeated type; otherwise it gives the declaration and the attribute mask |
| Vulkan.DeclarationLayout | src/renderer_vk.cpp:428-440 | Description i has binding 0, location = type, the table's format, and lies inside the stride in attribute order |
| Vulkan.DeclarationHandle | src/renderer_vk.cpp:444 | The handle is tagged vdecl, numbered by its place, and bit k of userdata is set exactly when the declaration has type k |
| Vulkan.FindMemoryType | src/renderer_vk.cpp:114-126 | The least index with the filter bit and all requested property flags, or 0 when none has them |
| Vulkan.SuitableBits | src/renderer_vk.cpp:120 | The memory-type test is the subset test on flag bits |
| Vulkan.First | src/renderer_vk.cpp:939-944 | The first index where a condition holds, or none |
| Vulkan.SelectQueueFamilies | src/renderer_vk.cpp:917-951 | Over eight families overflows the fixed arrays; otherwise the two loops choose what `QueueChoice` says; the loops of `src/vkrenderer.cpp:906-940` are the same |
| Vulkan.QueueChoiceSound | src/renderer_vk.cpp:923-941 | The graphics family has the graphics bit and the present family can present |
| Vulkan.QueueChoiceFails | src/renderer_vk.cpp:948-951 | Selection fails exactly when no family has the graphics bit or none can present |
| Vulkan.QueueChoiceShared | src/renderer_vk.cpp:928-931 | With a family that does both, both indices are the first such family |
| Vulkan.QueueChoiceSeparate | src/renderer_vk.cpp:936-945 | Otherwise they are the first graphics family and the first present family |
| RendererVulkan.RendererVk.constructor | src/renderer_vk.cpp:412-444 | The vectors start empty |
| RendererVulkan.RendererVk.CreateVdecl | src/renderer_vk.cpp:412-444 | A repeated type gives 0 and pushes nothing; otherwise one declaration is pushed and the handle carries the new size and the mask |
| RendererVulkan.RendererVk.CreateVb | src/renderer_vk.cpp:448-499 | The buffer is pushed and its handle is tagged vb with the new size |
| RendererVulkan.RendererVk.CreateIb | src/renderer_vk.cpp:501-508 | Returns 0 |
| RendererVulkan.RendererVk.CreateShader | src/renderer_vk.cpp:519-611 | A failure gives 0 and pushes nothing; otherwise the layout is pushed and the handle is tagged shader |
| RendererVulkan.RendererVk.CreatePipeline | src/renderer_vk.cpp:613-689 | Never aborts: a wrong tag on either handle gives 0; an index outside its vector is undefined; a failed `vkCreateGraphicsPipelines` gives 0; otherwise the pipeline is pushed and its handle is non-zero |
| RendererVulkan.RendererVk.BindPipeline | src/renderer_vk.cpp:715-727 | A handle not tagged pipeline records nothing; otherwise the pipeline is bound or the index is undefined |
| RendererVulkan.RendererVk.BindVb | src/renderer_vk.cpp:730-745 | A handle not tagged vb records nothing; otherwise the buffer is bound or the index is undefined |
| RendererVulkan.RendererVk.BindIb | src/renderer_vk.cpp:747-762 | A handle not tagged ib records nothing; otherwise the index buffer is bound or the index is undefined |
| VulkanRenderer.Vkrenderer.constructor | src/vkrenderer.cpp:452-485 | The vectors start empty |
| VulkanRenderer.Vkrenderer.CreateVdecl | src/vkrenderer.cpp:452-485 | As in `RendererVk`, with `byte4` mapped to `R8G8B8A8_UINT` |
| VulkanRenderer.Vkrenderer.CreateVb | src/vkrenderer.cpp:544-546 | The buffer is pushed and its handle is tagged vb with the new size |
| VulkanRenderer.Vkrenderer.CreateIb | src/vkrenderer.cpp:550-556 | Returns 0 |
| VulkanRenderer.Vkrenderer.CreateShader | src/vkrenderer.cpp:565-622 | Undefined exactly when `SpirvAnalyzer::analyze` faults on either blob; otherwise a failed layout throws, and a made one is pushed with a handle tagged shader |
| VulkanRenderer.Vkrenderer.CreatePipeline | src/vkrenderer.cpp:624-700 | A wrong tag trips `assert(false)`; an index outside its vector is undefined; a failed `vkCreateGraphicsPipelines` gives 0; otherwise the pipeline is pushed and its handle is non-zero |
| VulkanRenderer.Vkrenderer.BindPipeline | src/vkrenderer.cpp:721-733 | A handle not tagged pipeline records nothing; otherwise it is bound or undefined |
| VulkanRenderer.Vkrenderer.BindVb | src/vkrenderer.cpp:736-749 | A handle not tagged vb records nothing; otherwise it is bound or undefined |
| VulkanRenderer.Vkrenderer.BindIb | src/vkrenderer.cpp:751-756 | No tag check: defined exactly when internalid names a buffer, and never aborts |
| OpenGl.EnabledBits | src/renderer_gl.cpp:341 | The cache state `apply_vdecl` leaves has one entry per attribute type |
| OpenGl.Pointers | src/renderer_gl.cpp:354-381 | One pointer call per attribute |
| OpenGl.EnabledMeansPresent | src/renderer_gl.cpp:338-351 | An attribute array ends enabled exactly when the declaration has an attribute of that type |
| OpenGl.TogglesChanged | src/renderer_gl.cpp:342-350 | Enable is issued for an attribute exactly when it is in the flag and was disabled; disable exactly when it is not and was enabled |
| OpenGl.TogglesOrdered | src/renderer_gl.cpp:338-351 | Only enable and disable calls, in increasing attribute order, so at most one per attribute |
| OpenGl.TogglesSettled | src/renderer_gl.cpp:342 | Applying a declaration whose flags the cache already holds issues nothing |
| OpenGl.PointersLayout | src/renderer_gl.cpp:379-380 | Pointer call i names attribute i's type, its packed offset, and lies inside the stride |
| OpenGl.FormatsMatchStrides | src/renderer_gl.cpp:360-377 | For every format, size times the bytes of its GL type is the stride table's entry |
| OpenGl.DeclareVertices | src/renderer_gl.cpp:129-140 | The loop aborts exactly on a repeated type, never writes past the 14 slots, and otherwise gives the declaration with mask, stride, count and attributes |
| OpenGl.SyncAttributes | src/renderer_gl.cpp:338-351 | The cache ends equal to the flag's bits, and the calls issued are exactly the toggles of the changed entries |
| OpenGl.PointerCalls | src/renderer_gl.cpp:353-381 | The calls issued are the pointer calls of the declaration |
| OpenGl.NoRepeatFits | src/renderer_gl.cpp:129-136 | Attributes without repeats up to a point number at most fourteen |
| OpenGl.RendererGl.constructor | src/renderer_gl.cpp:53 | Empty vectors, nothing pending, every attribute array disabled |
| OpenGl.RendererGl.CreateVdecl | src/renderer_gl.cpp:126-143 | Aborts exactly on a repeated type and is never undefined; otherwise pushes the declaration and returns the new size |
| OpenGl.RendererGl.CreateVb | src/renderer_gl.cpp:145-162 | Pushes an array-buffer resource and returns the new size |
| OpenGl.RendererGl.CreateIb | src/renderer_gl.cpp:164-167 | Returns 0 |
| OpenGl.RendererGl.CreateShader | src/renderer_gl.cpp:174-251 | A failed compile or link gives 0; otherwise pushes the program and returns the new size |
| OpenGl.RendererGl.CreatePipeline | src/renderer_gl.cpp:253-262 | Pushes the two handles unchecked and returns the new size |
| OpenGl.RendererGl.BindPipeline | src/renderer_gl.cpp:284-296 | Never aborts. Sets the reset flag; 0 leaves the pending declaration; otherwise the pipeline's declaration becomes pending and its program is used, or a bad index is undefined |
| OpenGl.RendererGl.BindVb | src/renderer_gl.cpp:298-305 | Never aborts: binds the resource, undefined exactly outside the vector |
| OpenGl.RendererGl.ApplyVdecl | src/renderer_gl.cpp:332-382 | Undefined outside the vector; otherwise the cache matches the flag and the calls are the toggles then the pointers |
| OpenGl.RendererGl.DrawArray | src/renderer_gl.cpp:317-325 | Never aborts, and is undefined exactly when the pending declaration is outside the vector; otherwise a pending declaration is applied once and cleared before the draw; with none pending only the draw is issued |
| Direct3D11.FormatsMatchStrides | src/renderer_dx11.cpp:7-33 | Every DXGI format the table gives takes the bytes the stride table gives |
| Direct3D11.NamesDistinct | src/renderer_dx11.cpp:17-23 | No two attribute types share a semantic name |
| Direct3D11.NamesShifted | src/renderer_dx11.cpp:21 | The missing comma names type 11 "TexCoords7BoneWeight", 12 "BoneIndices" and 13 "INVALID" |
| Direct3D11.LayoutPacked | src/renderer_dx11.cpp:146-156 | Elements are packed in order: each ends before the next starts, all within the stride |
| Direct3D11.LayoutNamesDistinct | src/renderer_dx11.cpp:149 | The semantic names of a layout are distinct exactly when its attribute types are |
| Direct3D11.BuildLayout | src/renderer_dx11.cpp:143-156 | No check on the attributes; undefined exactly past 14 attributes; otherwise the layout of names, formats and packed offsets |
| Direct3D11.RendererDx11.constructor | src/renderer_dx11.h:84-86 | Empty vectors and no pipeline |
| Direct3D11.RendererDx11.CreateVdecl | src/renderer_dx11.cpp:141-160 | Pushes the layout and returns the new size; undefined past 14 attributes |
| Direct3D11.RendererDx11.CreateVb | src/renderer_dx11.cpp:162-183 | Pushes the buffer and returns the new size |
| Direct3D11.RendererDx11.CreateIb | src/renderer_dx11.cpp:185-188 | Returns 0 |
| Direct3D11.RendererDx11.CreateShader | src/renderer_dx11.cpp:195-224 | A failed vertex or pixel shader gives 0; otherwise pushes the shader and returns the new size |
| Direct3D11.RendererDx11.CreatePipeline | src/renderer_dx11.cpp:226-255 | Undefined unless both handles name a layout and a shader; otherwise pushes a pipeline with the layout's stride |
| Direct3D11.RendererDx11.BindPipeline | src/renderer_dx11.cpp:277-287 | Records the handle and sets the pipeline's state, undefined unless it names a pipeline |
| Direct3D11.RendererDx11.BindVb | src/renderer_dx11.cpp:289-299 | Binds the buffer with the bound pipeline's stride, undefined unless both handles name the right kinds |
| Direct3D11.RendererDx11.DrawArray | src/renderer_dx11.cpp:311-318 | Nothing while no pipeline is bound; otherwise one draw |
| Direct3D11.RendererDx11.DrawIndexed | src/renderer_dx11.cpp:320-323 | Issues nothing, whether or not a pipeline is bound |

## Left out

- I/O and printing: every `printf`, `CHECK_GL`, `CheckGLError`, `storage2str` and the debug callbacks.
- The graphics APIs themselves: device, swapchain, command-buffer, render-pass, buffer and texture creation. The objects they return are parameters. The GL calls of `create_vb` and `create_shader` are not in the trace.
- `vk_create_physdevice`: it queries a device other than the one it loops over and shadows its loop variable. It is foreign, and nothing in it can be specified.
- The call to `SpirvAnalyzer::analyze` in `src/renderer_vk.cpp:555-557`: it passes three arguments and a `SpirvAnalyzer::Uniform` type that `src/spirvanalyzer.h` does not declare, so it cannot compile. The model's `CreateShader` takes the resulting layout, or its absence, as a parameter.
- `src/renderer_vk.h` declares the class `Vkrenderer`, while `src/renderer_vk.cpp` defines `RendererVk`. The model follows the `.cpp` file.
- `m_reset_vdecl` is assigned by `RendererGl::bind_pipeline` but not declared in `src/renderer_gl.h`. The model gives the class that field.
- `src/renderer_dx11.cpp` declares its locals as `d3dRsource`, while `src/renderer_dx11.h` declares `struct d3dResource`. The model follows the header (`DxResource`).
- `s_enabledVertexAttribFlag` is a static shared by all GL renderers. The model makes it an array owned by one renderer.
- Floating point: `src/mathlib.*`, `quantinizer`, `Time::tick`, and the float contents of vertices.
- `rand()` in `Guid::generate`: its 38 results are an input sequence.
- `Guid` constructors, `set` and comparisons: these are outside the modelled core.
- The GL and Vulkan `draw_array`/`draw_indexed` bodies and the GL `_vattribnames` table: these issue API calls or are unused by the modelled operations. The Direct3D 11 `draw_indexed` ends at its guard and is modelled.
- FBX import, GL extension loading, the Win32 main loop and the build scripts.
- Concurrency: the engine is single-threaded in these paths.
- Attribute types and formats are required to lie within their enums (`AllValid`). An `eVertexAttrib_Invalid` of -1 would shift by a negative amount, which C++ leaves undefined.
- Byte order: the union `resourserunion` is read as on a little-endian machine.
- `murmur64`: the signed `int64_t` overflow is taken as two's-complement wrap-around.
- `m_commandbuffers[m_currCmdBuffer]` in the Vulkan `bind_*`: the current command buffer is taken to exist.
- `Vkrenderer::create_pipeline` and `RendererGl::create_vdecl`: with assertions compiled out, execution would continue past `assert(false)`. The model follows a debug build and stops there (`Aborted`).
- `SpirvAnalyzer` and `Spirvflect.Analyze`: pointer arithmetic past the end of the buffer is not itself treated as undefined; only reads are. In `Spirvflect` a word count that overshoots the buffer seeks past its end (`src/spirvflect.h:172, 286`), and the model ends the pass there as a clean end of stream.
- `Spirvflect.Analyze`: it requires that every instruction the loop completes declares at least one word. With a word count of 0 after a completed instruction, the source seeks back to the same header and repeats it without end. An instruction that faults or aborts ends the pass whatever its word count, and so does a header cut off by the end of the buffer; those streams are admitted (`SpirvflectProperties.AbortBeforeZeroCount`).
- `SpirvflectSpec.OnVariable`: the caller's output vector is taken to be non-null. With a null `uniforms` the source pushes nothing (`src/spirvflect.h:265`).
- `Hash.BernsteinCi`: `tolower` is taken in the "C" locale, so only the ASCII letters A to Z are folded.
- `SpirvAnalyzer.ReadName`: it requires the byte count to be 3 modulo 4, which every `4 * size - 1` is (`SpirvAnalyzerSpec.NameBytesOdd`).
