# A verified model of oneseismic

oneseismic stores a survey, a three-dimensional cube of samples, in fragments of
equal shape, and answers queries for a plane (a slice) or for a list of vertical
traces (a curtain). The scan and the upload cut a survey in fragments while it
is read. A query is planned as tasks, lists of fragments; workers on many
machines extract the requested part of every fragment and pack the results of a
task in a bundle; a collector streams the bundles in the order in which they
are finished; and the client reads the stream piece by piece, and puts every
bundle in its place in the output. Every stage does its own index arithmetic.
This project models the stages, each in the form that the source gives it, and
proves that they agree: what a client decodes is the requested part of what was
uploaded, whatever the shapes, the task size, the interleaving of the machines,
the order of the bundles, and the places where the stream is cut.

`dafny verify dfyconfig.toml` checks everything.

| part | files |
|---|---|
| index arithmetic | Arith, Shapes, Geometry, Strides |
| writing cells exactly once | Lists, Cells |
| upload | Survey, Upload, FileSets, UploadRun |
| queries and plans | Messages, Queries, Grouping, Plan, CurtainPlan, CurtainSize, Partition, Scheduling |
| workers | SliceWorker, CurtainWorker |
| reading a response | ArrayTag, Extraction, Decoder, Stream |
| slices | PlaneCover, SliceQuery, Assembly, SliceEndToEnd |
| curtains | CurtainQuery, CurtainCover, CurtainEndToEnd, AttributeCurtain |
| many machines | Services, Distributed, Runs, FinishedRuns, BlockedWorkers, WholeRun |
| from the survey to the answer | SurveyAnswers |
| the catalogue's filter | SqlFilter |
| support | Base64, BlobReads |

The three steps of the main argument are: a cell is written at most once
(`Once`), every cell is written (`Written`), and every write is right (`Right`).
Together they make an exact cover (`Cells.ExactCover`), and exact covers do not
depend on the order of the writes, nor on the order of the bundles.

A sample is a word of 32 bits that is only copied. The unpacker of the stream
is any function that is stable under more input (`PrefixStable`), and an encoder
is any function that it reads back (`Encodes`); only the array tags are
concrete, as the "array format family" of the MessagePack specification defines
them. A fetch succeeds or fails, a machine may stop, and jobs may be lost at any
time.

## Model

| member | source | states |
|---|---|---|
| WholeRun.SliceRun | api/api/result.go:47-91 | For a slice of a stored survey, in every reachable state of scheduler, workers and collector, and for every beginning of what was emitted: the client decodes every plane right, or knows that the response is incomplete; after the collector stopped and everything was received, every plane is right |
| WholeRun.CurtainRun | api/api/result.go:47-91 | The same for a curtain: the data's traces outright, and those of every attribute whose columns are contiguous |
| WholeRun.EveryOrder | api/api/result.go:47-91 | With a node to serve every task, every order of the bundles is that of a run in which the collector stops after emitting the complete response |
| WholeRun.SliceFinishes | api/api/result.go:47-91 | With one worker somewhere, a slice of any number of tasks and fragments has a run that ends with the bundles in any given order, and the client decodes every plane |
| WholeRun.CurtainFinishes | api/api/result.go:47-91 | The same for a curtain |
| WholeRun.SliceRunOf | api/cmd/fetch/fetch.go:268-308 | The system built from a slice's plan packs, for every job that added each fragment once in any order, the encoded bundle of its task |
| WholeRun.CurtainRunOf | api/cmd/fetch/fetch.go:268-308 | The system built from a curtain's plan packs, for every job that added each fragment once in any order, the encoded bundle of its task |
| WholeRun.StartSlice | api/api/query.go:82-115 | Scheduling and taking apart a slice's plan gives the header and the tasks of that system; there is no plan exactly for a bad task size or too many jobs |
| WholeRun.StartCurtain | api/api/query.go:82-115 | The same for a curtain; there is also no plan exactly when there are no points |
| WholeRun.EmittedBegins | api/api/result.go:47-91 | What the collector has emitted is always the beginning of a complete response with the bundles in some order, and all of it when it has stopped |
| WholeRun.CutOrWhole | python/oneseismic/decoding/decoding.py:67-101 | A beginning of a complete response decodes like the whole, or is reported as incomplete |
| SurveyAnswers.SurveySlice | python/oneseismic/upload/upload.py:327-353 | From upload to client: the response has the data and every attribute that was asked for, by name, in arrays of the shapes that its header announces; at the place of every point of the plane is the sample of the trace last uploaded with the point's lines, and an attribute that is not recorded is zero; or the client knows that the response is incomplete, which it is not once the collector has stopped and all was received |
| SurveyAnswers.SurveyCurtain | python/oneseismic/upload/upload.py:327-353 | From upload to client: the same for a curtain, for every point the trace last uploaded with its lines, in arrays of the announced shapes; for the data outright, and for every attribute that was asked for, by name, whose tiles keep the points together |
| SurveyAnswers.SliceReady | python/oneseismic/upload/upload.py:327-353 | The files of an upload, for a manifest with the upload's lines, are all that a slice query needs |
| SurveyAnswers.CurtainReady | python/oneseismic/upload/upload.py:327-353 | The files of an upload, for a manifest with the upload's lines, are all that a curtain query needs |
| SurveyAnswers.SameGeometry | core/include/oneseismic/messages.hpp:101-134 | The geometry that the planner takes from a manifest is the one the upload cut the survey with, for the data and for attributes in their own tiles |
| SurveyAnswers.AskedLines | core/src/messages.cpp:502-592 | The pairs of lines that a curtain asks for are the lines of its rows, each as often as it is asked for |
| SurveyAnswers.SampleIs | python/oneseismic/upload/upload.py:327-353 | The sample of a pair of lines is that of the trace after which none has the pair, and zero when no trace has it |
| SliceEndToEnd.SliceDecodes | core/src/decoder.cpp:319-351 | For every manifest, direction, index and task size, and every order in which the bundles arrive, the response decodes to the announced header, the requested plane of the data and of every recorded attribute, and zeros for the others |
| SliceEndToEnd.BundlesCover | core/src/process.cpp:142-160 | The bundles of all tasks of a slice write every cell of a volume's plane exactly once, with the right sample |
| SliceEndToEnd.TaskWorks | core/src/process.cpp:121-140 | Every task of a slice is one its worker accepts, and all its fragments are stored |
| SliceEndToEnd.GatheredWhole | api/cmd/fetch/fetch.go:268-308 | Adding every fragment of a slice task once, in whatever order, makes the bundle of the task |
| CurtainEndToEnd.CurtainDecodes | core/src/decoder.cpp:353-389 | For every manifest, list of points, task size and order of arrival the response decodes to the announced header; every volume whose columns are contiguous gives the requested traces in the requested rows, and attributes that are not recorded give zeros |
| CurtainEndToEnd.BundlesCover | core/src/process.cpp:245-265 | When the points are contiguous for the fragments of a volume, the bundles of its tasks write every requested sample exactly once, although columns are cut across tasks, points repeat and edge fragments are padded |
| CurtainEndToEnd.DataIsContiguous | core/src/messages.cpp:418-443 | The points of a query are always contiguous for the data |
| CurtainEndToEnd.TaskWorks | core/src/process.cpp:166-243 | Every task of a curtain is one its worker accepts, without an int overflow, and all its fragments are stored |
| CurtainEndToEnd.GatheredWhole | api/cmd/fetch/fetch.go:268-308 | Adding every fragment of a curtain task once, in whatever order, makes the bundle of the task |
| AttributeCurtain.RightIffContiguous | core/src/plan.cpp:317-362 | For every order of arrival, a volume's buffer holds the requested traces if and only if the points are contiguous for the volume's own tiles |
| AttributeCurtain.GroupedForTiles | core/src/messages.cpp:432-442 | Points grouped by data fragments are contiguous for tiles that are a whole number of fragments wide and as broad as the survey |
| AttributeCurtain.NotForAllTiles | core/src/messages.cpp:371-393 | A query of three points in a survey with 64-cubes and tiles of 512 by 512, grouped as the planner groups it, whose attribute does not arrive, whatever the task size and the order of the bundles |
| AttributeCurtain.NeverWritten | core/src/plan.cpp:335-359 | When points are not contiguous, the last row that is separated from its column is written by no fragment |
| Distributed.ReachableInv | api/cmd/fetch/pipeline.go:249-261 | Every step keeps: each enqueued request is in exactly one place, the result stream lists the stored tasks in the order they were stored, and the collector follows it |
| Distributed.PackedIsWhole | api/cmd/fetch/fetch.go:268-308 | A job that packed its result added each fragment exactly once, and none of its fetches failed |
| Distributed.NoWorkerBlocks | api/cmd/fetch/pipeline.go:137-163 | When a job has no more fragments than the node has workers, a worker that holds something for it can send at once, also after gather has returned |
| Distributed.ResultsSound | api/api/scheduler.go:47-79 | There are never more results than tasks, no two of the same part, none before the header is stored, and each is packed from all fragments of its task |
| Distributed.CollectedSound | api/api/result.go:47-91 | What was emitted is the header and then results in the order of the stream; a collector that stopped emitted the result of every task once |
| Distributed.FinishedIffAllStored | api/api/result.go:178-241 | The stream has as many results as there are tasks exactly when every task is stored, which is what Status and Get look at |
| FinishedRuns.FinishesIff | api/api/result.go:47-91 | For every system: some run ends with the collector having emitted every result if and only if every task has a node to serve it, with a worker if the task has fragments |
| FinishedRuns.FinishInOrder | api/cmd/fetch/fetch.go:268-308 | If every task has such a node, there is a run that stores the results in any given order |
| BlockedWorkers.BlocksIff | api/cmd/fetch/fetch.go:268-308 | For every system, job and node: some run leaves a worker of the node waiting for good to send for the job if and only if the node has a worker and the job has at least two fragments more than the node has workers |
| BlockedWorkers.StuckForever | api/cmd/fetch/pipeline.go:249-261 | A worker that is stuck does not send in any run that continues from there |
| BlockedWorkers.StuckOrServed | api/cmd/fetch/fetch.go:282-296 | A worker that is not stuck can send at once, or gather can read from one of the job's channels |
| Services.Storage.Schedule | api/api/scheduler.go:47-79 | The header is stored before any job, and the jobs are added in order, up to the first command that fails; the outcome is complete if and only if the header and all jobs are stored, and otherwise tells the command that failed |
| Services.CollectResult | api/api/result.go:47-91 | The header and then every value in the order of the stream, also when it stops at a failing read, or at a value that is no string; it finishes if and only if a reply brings the count to the number of tasks, the first that does, and keeps the id of the last entry |
| Stream.DecodeStream | python/oneseismic/decoding/decoding.py:37-101 | The outcome depends on the bytes alone, not on the pieces they come in |
| Stream.InterleavingIrrelevant | core/src/decoder.cpp:236-299 | Once the header is there, buffering and processing in any interleaving ends in the same phase, buffers and status as processing all bytes at once |
| Stream.StepFeed | core/src/decoder.cpp:236-291 | Processing and then getting more bytes is getting them first, except for the pause after the header, which no bundle is extracted before: the buffers are as they were |
| Stream.DoneIsFinished | core/src/decoder.cpp:236-291 | Done is returned exactly when the decoder is finished, and when a call makes it so no announced bundle is left |
| Stream.DecodeResponse | core/src/plan.cpp:465-487 | A response as the planner and the collector put it together is read completely, and gives the header and what its bundles extract |
| Stream.TruncatedResponse | python/oneseismic/decoding/decoding.py:81-99 | A response that is cut is reported as cut: without a header when the cut is before the end of the header object, and as incomplete otherwise |
| Stream.NoEnvelope | core/src/decoder.cpp:149-165 | A stream that does not begin with the tag of an array of two ends in the error for its tag |
| Stream.NoHeader | core/src/decoder.cpp:236-291 | An envelope without a header ends in the error for what is there instead |
| Stream.BadShapes | python/oneseismic/decoding/decoding.py:11-19 | A header whose shapes are not those of arrays ends the decoding |
| Stream.WrongCount | core/src/decoder.cpp:236-291 | A response whose array tag differs from the number of bundles in the header ends in the error for it |
| Stream.RejectedResponse | core/src/decoder.cpp:236-291 | A response with a bundle that is rejected ends in the error of that bundle |
| Stream.AllocArrays | python/oneseismic/decoding/decoding.py:11-19 | Zeroed arrays of the announced shapes, separate for every attribute |
| Decoder.StreamDecoder.Process | core/src/decoder.cpp:236-291 | The resumable state machine, on buffers in place, is one step of the machine on values |
| Decoder.StreamDecoder.BufferAndProcess | core/src/decoder.cpp:293-299 | Appending and processing is one step with more bytes |
| Decoder.StreamDecoder.Reset | core/src/decoder.cpp:169-176 | A decoder that is reset is as good as new |
| Decoder.StreamDecoder.RegisterWriter | core/src/decoder.cpp:189-191 | A writer is registered under its attribute, and nothing else changes |
| Decoder.StreamDecoder.GetHeader | core/src/decoder.cpp:178-187 | There is a header exactly in the phases after it |
| Decoder.StreamDecoder.ExtractBundle | core/src/decoder.cpp:301-317 | The buffers change as the extraction on values says, and a rejected bundle changes none |
| ArrayTag.ParseStable | core/src/decoder.cpp:124-147 | More bytes do not change a tag that was read |
| ArrayTag.ParsePacked | core/src/plan.cpp:465-487 | The tag of every length that is announced is read back, and takes as many bytes as were written |
| ArrayTag.ParseCut | core/src/decoder.cpp:124-147 | A tag that is cut is not read at all |
| ArrayTag.TagBytes | core/src/decoder.cpp:124-147 | The three tags of an array, byte by byte in network order, what is too short, and what is no tag |
| Extraction.ExtractSlice | core/src/decoder.cpp:319-351 | The strided copies into the output are the list of writes of the bundle, in order, when all of them stay inside |
| Extraction.ExtractCurtain | core/src/decoder.cpp:353-389 | The same for the runs of a curtain, with positions computed in an int |
| Assembly.ExtractAllApplies | core/src/decoder.cpp:301-317 | Accepted bundles are all extracted, and every attribute's buffer gets its own bundles' writes, and nothing else |
| Assembly.ExtractRejects | core/src/decoder.cpp:301-389 | A bundle is rejected if and only if it is of the wrong kind or leaves the buffer, with the telling error |
| Assembly.Assembled | core/src/decoder.cpp:391-396 | Bundles that cover a target exactly assemble it in every order of arrival |
| Assembly.HeaderBuffers | python/oneseismic/decoding/decoding.py:11-19 | The header asks for one zeroed buffer of the right size for the data, and one for every attribute |
| Plan.BuildSlice | core/src/plan.cpp:149-175 | One task for the data, and one for precisely the attributes that are both asked for and recorded, in the tiles of their first description, with the fragments that its plane cuts |
| Plan.BuildCurtain | core/src/plan.cpp:301-365 | One task for the data, and one for precisely the attributes that are both asked for and recorded, in the tiles of their first description, with the complete fragment columns of the points |
| Plan.TaskVolume | core/include/oneseismic/messages.hpp:101-134 | An attribute is a cube of one sample per trace, with its own fragment shape |
| Plan.FindAttribute | core/src/plan.cpp:122-134 | The first description of the attribute, and none exactly when there is none |
| Plan.VolumesPlanned | core/src/plan.cpp:149-175 | No attribute that is asked for and recorded is left out of a plan, and no other is in it |
| Plan.VolumesValid | core/src/plan.cpp:122-134 | The volumes of a query are proper geometries with the survey's lines, the data first, and no attribute twice |
| Plan.MakeSliceHeader | core/src/plan.cpp:177-256 | The header announces the data and every attribute that was asked for; its shapes have one in the queried direction, and one in the depth of an attribute, and otherwise the number of lines; its index has all lines, and the queried one in that direction |
| Plan.MakeCurtainHeader | core/src/plan.cpp:367-409 | The header announces the data and every attribute that was asked for; the data has a row of the depth for every point, an attribute one sample for every point; its index has the lines of every point, and the depths |
| Plan.SliceIndexDecodes | python/oneseismic/decoding/xarray.py:7-12 | Splitting the index of a slice header gives all lines of each direction, and the queried line in the queried one |
| Plan.CurtainIndexDecodes | python/oneseismic/decoding/xarray.py:7-12 | Splitting the index of a curtain header gives the two lines of every point, and all depths |
| Plan.ShapesDecode | python/oneseismic/decoding/decoding.py:5-9 | Splitting the shapes of a header gives one shape for the data and one for every attribute |
| CurtainPlan.BuildIds | core/src/plan.cpp:335-359 | The sorted vector is always the expansion of the points' columns: strictly sorted, complete from top to bottom, with each column's first row and local points |
| CurtainPlan.Find | core/src/plan.cpp:270-299 | The search finds an id if and only if it is there, and otherwise where it belongs |
| CurtainPlan.ExpandSorted | core/src/plan.cpp:270-299 | The expansion of sorted columns is a strictly sorted map |
| CurtainPlan.ColumnsStep | core/src/plan.cpp:335-359 | One more point keeps the columns those of the points seen so far |
| Grouping.GroupedOrdered | core/src/messages.cpp:418-443 | Grouping gives a permutation of the points, ordered by fragment, and by point inside a fragment |
| Grouping.GroupedContiguous | core/src/messages.cpp:418-443 | In grouped points, every fragment column is in consecutive rows |
| Grouping.CurtainCoordinates.GroupByFragmentInplace | core/src/messages.cpp:418-443 | The two coordinate lists are sorted together, in place |
| Scheduling.ScheduleSlice | core/src/plan.cpp:541-552 | The plan is the packed tasks and then the header that announces how many; the program ends exactly when an output has too many jobs for an int |
| Scheduling.ScheduleCurtain | core/src/plan.cpp:541-552 | The same; the program ends exactly when there are no points, or an output has too many jobs for an int |
| Scheduling.PlanSlice | api/api/query.go:100-114 | The header, and the packed tasks in their order, come out of the packed set of a slice |
| Scheduling.PlanCurtain | api/api/query.go:100-114 | The header, and the packed tasks in their order, come out of the packed set of a curtain |
| Scheduling.NormalizedIs | core/src/plan.cpp:99-120 | Normalized attributes are in increasing order, and precisely those asked for, with both coordinates for cdp |
| Partition.Partition | core/src/plan.cpp:434-463 | The blobs are the packed pieces of all outputs; a task size below one is an error, and an output that cannot be counted ends the program |
| Partition.ChunksLossless | core/src/plan.cpp:434-463 | The pieces have between one and task-size ids, all but the last are full, and together they are the ids in order |
| Partition.PieceCount | core/src/plan.cpp:413-419 | There are as many tasks as the sum of the rounded-up quotients |
| Partition.TaskCountIs | core/src/plan.cpp:86-97 | The count is an error exactly when there are no jobs, or the sum leaves the range of an int |
| Partition.TaskSet.Append | core/include/oneseismic/plan.hpp:37-41 | The sizes and the bytes stay those of the blobs |
| Partition.SplitPlan | api/api/query.go:100-114 | Walking the bytes with the sizes gives back every blob, the last one as the header |
| SliceWorker.Gather | api/cmd/fetch/fetch.go:268-308 | Whatever fragments arrive, in whatever order, the result is packed from the planes they were added as |
| SliceWorker.PackedWhole | core/src/process.cpp:142-164 | Once every fragment is added, the order and repetitions make no difference to the bundle of a slice |
| SliceWorker.SliceProc.Add | core/src/process.cpp:142-160 | The tile of the fragment is its plane, row-major, with the layout that puts it in the output |
| SliceWorker.StridedPlane | core/include/oneseismic/geometry.impl.hpp:416-447 | The strides of slice_stride read exactly the plane, back to back |
| SliceQuery.SliceCovered | core/src/process.cpp:142-160 | Extracting with slice_stride and injecting with injection_stride, over all fragments that the plane cuts, writes the row-major plane, each cell once |
| CurtainWorker.Gather | api/cmd/fetch/fetch.go:268-308 | Whatever fragments arrive, in whatever order, the result is packed from the segments they were added as |
| CurtainWorker.PackedWhole | core/src/process.cpp:245-269 | Once every fragment is added, the order and repetitions make no difference to the bundle of a curtain |
| CurtainWorker.CurtainProc.Add | core/src/process.cpp:245-265 | A fragment's traces go to its own segment of the values, and nothing else changes |
| CurtainWorker.StartIs | core/src/process.cpp:179-220 | The prefix sums are where the segments start, so consecutive entries partition the values |
| CurtainWorker.TraceIndex | core/src/process.cpp:179-220 | The table of prefix sums, computed in ints, is exact for a task whose samples fit in an int |
| CurtainWorker.Extents | core/src/process.cpp:220-243 | The row and depth ranges of every fragment, without the padding |
| CurtainSize.PlannedSize | core/src/plan.cpp:317-362 | The samples that all fragments of a planned curtain deliver, and their number, are not more than rows times depth |
| CurtainQuery.BundleWrites | core/src/decoder.cpp:353-389 | Reading a bundle run by run writes the traces that the worker put in, each at its row and depth |
| CurtainCover.CurtainCovered | core/src/plan.cpp:301-365 | The fragments of a planned volume with contiguous columns write every requested sample exactly once |
| Geometry.PointRoundTrip | core/include/oneseismic/geometry.impl.hpp:57-96 | A point's fragment and local point give the point back, and are in the grid and outside the padding |
| Geometry.FragmentRoundTrip | core/include/oneseismic/geometry.impl.hpp:57-96 | A fragment and a local point outside its padding give a point of the cube, and come back from it |
| Geometry.SideBySide | core/include/oneseismic/geometry.impl.hpp:57-96 | In every direction, a point is in the fragment whose range has it, at its distance from the start of the range, and there are as many fragments as it takes to reach the last point |
| Geometry.VolumesSum | core/include/oneseismic/geometry.impl.hpp:121-138 | The unpadded volumes of all fragments sum to the volume of the cube, in any number of dimensions |
| Geometry.RealExtent | core/include/oneseismic/geometry.impl.hpp:121-138 | Without its padding, a fragment is what is left of the cube, but no more than a full one; only the last one is padded |
| Shapes.OffsetBound | core/include/oneseismic/geometry.impl.hpp:358-382 | Row-major offsets stay below the number of samples |
| Shapes.OffsetInjective | core/include/oneseismic/geometry.impl.hpp:358-382 | Different points have different offsets |
| Shapes.OffsetSurjective | core/include/oneseismic/geometry.impl.hpp:358-382 | Every offset below the number of samples is that of a point |
| Strides.Product | core/include/oneseismic/geometry.impl.hpp:19-29 | The product that is accumulated in an int is right if and only if it fits in an int |
| Strides.GetOffset | core/include/oneseismic/geometry.impl.hpp:358-382 | The inner product with the suffix products, accumulated in an int, is the row-major offset when the volume fits |
| Strides.ToLocal | core/include/oneseismic/geometry.impl.hpp:57-66 | The loop computes the local point that SideBySide and the round trips are about |
| Strides.FragmentOf | core/include/oneseismic/geometry.impl.hpp:86-96 | The loop computes the fragment id that SideBySide and the round trips are about |
| Strides.ToGlobal | core/include/oneseismic/geometry.impl.hpp:68-78 | The loop computes the fragment's corner plus the local point, which is in the cube |
| Strides.InjectionStride | core/include/oneseismic/geometry.impl.hpp:98-119 | The layout for injecting a fragment: as many chunks as it has rows, from the offset of its first point, one row of the cube apart |
| Strides.SliceStride | core/include/oneseismic/geometry.impl.hpp:416-447 | The layout for extracting a plane: as many chunks as there are points before the slot, one block of the slot apart |
| Strides.PlaneFragmentsExact | core/include/oneseismic/geometry.impl.hpp:304-354 | The fragments of a plane are exactly those of the grid with the pinned index, each once |
| Strides.Slice | core/include/oneseismic/geometry.impl.hpp:304-354 | In any number of dimensions, an index outside the cube is an error, and otherwise the fragments that the plane cuts are listed in row-major order |
| Strides.Cartesian | core/include/oneseismic/geometry.impl.hpp:217-281 | For any number of slots, element m of the product is the beginning plus the m-th point of the widths |
| Queries.IndexOfNearest | core/src/messages.cpp:471-498 | Accepted if and only if the rounded value is between the first and the last label, and then no label is nearer, also where lines are missing |
| Queries.UtmToCartesian | core/src/messages.cpp:453-498 | The matrix times (x, y, 1), with the products written out; each position is accepted if and only if its rounded line number is in range, and is nearest |
| Queries.ToCartesian | core/src/messages.cpp:349-357 | A label is found if and only if it is there |
| Queries.ResolveSlice | core/src/messages.cpp:295-337 | Accepted if and only if the direction and the index or line exist, with the error that tells which |
| Queries.ResolveCurtain | core/src/messages.cpp:502-592 | Accepted if and only if every coordinate is in the cube; the query has the positions of all coordinates, grouped by the fragments of the data |
| SqlFilter.PrintedKeepsMeaning | api/internal/postgres/postgres.go:156-210 | Reading the printed filter, with AND binding tighter than OR, gives the value of the recursive filter, at any depth; nothing is printed exactly when there is no value |
| SqlFilter.FilterMeans | api/internal/postgres/postgres.go:156-210 | Fields are combined by the operator of the list they are in, lists by their own, and absent or empty parts do not matter |
| SqlFilter.ValueIs | api/internal/postgres/postgres.go:156-210 | The value of a filter, in terms of its field and of the filters in its lists: AND wants none that fails and OR one that holds, among those that say anything |
| SqlFilter.JsonbFilter | api/internal/postgres/postgres.go:156-210 | The recursive functions print the factors of the filter that PrintedKeepsMeaning is about |
| SqlFilter.GisGeometry | api/internal/postgres/postgres.go:262-272 | One test for every geometry that is set and has coordinates |
| SqlFilter.Where | api/internal/postgres/postgres.go:309-335 | The clause that WhereMeansBoth is about |
| SqlFilter.WhereMeansBoth | api/internal/postgres/postgres.go:309-335 | The clause means some geometry and the filter, whatever the tests say, if and only if there is at most one geometry or the filter says nothing |
| SqlFilter.TwoGeometries | api/internal/postgres/postgres.go:321-329 | A point, a polygon and a filter, and a manifest that the clause finds although the filter does not hold |
| UploadRun.UploadSurvey | python/oneseismic/upload/upload.py:327-353 | For traces in any order, scanned and uploaded, for the data or an attribute: every fragment of the grid is written exactly once, and holds the values of the last trace of each pair of lines, with zeros elsewhere; the scan fails exactly for an interval of zero |
| UploadRun.OrderIrrelevant | python/oneseismic/upload/upload.py:327-353 | With different pairs of lines, permuting the traces gives the same lines and the same files |
| UploadRun.LaneFrozen | python/oneseismic/upload/upload.py:104-147 | Nothing that comes after the last trace of a lane changes what the lane should hold |
| UploadRun.RoundKeeps | python/oneseismic/upload/upload.py:333-353 | One turn of the loop: a lane is written out once, and only after its last trace was put |
| UploadRun.LaneLimits | python/oneseismic/upload/upload.py:192-211 | From the last trace of every line, the limits are the last trace of every lane |
| UploadRun.UploadStores | python/oneseismic/upload/upload.py:327-353 | What is written is a store of the survey's cube, as the workers need it |
| FileSets.FileSet.Put | python/oneseismic/upload/upload.py:163-190 | Every section of a trace goes to its row of its fragment, which is zeros when it is new |
| FileSets.FileSet.Commit | python/oneseismic/upload/upload.py:104-147 | At the lane's last trace, all fragments of the lane are handed out once and forgotten, also those never written to; otherwise none |
| FileSets.MaxPerLane | python/oneseismic/upload/upload.py:192-211 | The limit of a lane is the largest last trace of its lines |
| FileSets.SplitArray | python/oneseismic/upload/upload.py:12-37 | The values are cut in full pieces, the last of which may be shorter |
| Upload.PutFragment | python/oneseismic/upload/upload.py:186-190 | Putting a trace changes one part of one row in the fragments of its column |
| Survey.LineScanner.Report | python/oneseismic/scan/scanners.py:119-178 | The sorted lines of all traces, the depths from zero on in steps of the interval, and for every line the number of its last trace; it raises exactly without a binary header, or with an interval of zero |
| Survey.Arange | python/oneseismic/scan/scanners.py:166-168 | The loop lists as many values as there are samples, from zero on in equal steps, whether it counts up or down, and refuses an interval of zero |
| UploadRun.Scan | python/oneseismic/scan/scanners.py:119-178 | Scanning a binary header and then all trace headers reports the lines of the traces, their last traces and the depths |
| Survey.LineScanner.ScanTraceHeader | python/oneseismic/scan/scanners.py:155-161 | One more trace is counted under its lines |
| Survey.LatestPermuted | python/oneseismic/upload/upload.py:163-190 | With different pairs of lines, the last trace of a pair does not depend on the order |
| Survey.LatestIsLast | python/oneseismic/upload/upload.py:163-190 | The trace that counts for a pair of lines is one after which no trace has the pair |
| Base64.RoundTrip | core/src/base64.cpp:86-121 | Decoding an encoding gives the bytes back, for every number of bytes |
| Base64.InTable | core/src/base64.cpp:34-37 | The character of every digit is the entry of the table of the 64 characters with that number |
| Base64.ValueInTable | core/src/base64.cpp:34-42 | The accepted characters are precisely those of the table, and the value of each is its position |
| Base64.EncodedShape | core/src/base64.cpp:44-84 | An encoding has four characters for every three bytes, rounded up, and padding only at its end, as much as section 4 of RFC 4648 says |
| Base64.Encode | core/src/base64.cpp:44-84 | The loop over bytes writes characters of the table, whose positions have the bits of the bytes, six to a character, with zeros to fill the last, and pads to groups of four |
| Base64.Decode | core/src/base64.cpp:86-121 | The loop over characters stops at the first that is not of the table, and the bits of the positions of those before it, as many as make whole bytes, are the bytes |
| BlobReads.BlobRead.Read | python/oneseismic/internal/blobfs.py:284-312 | The bytes at the position, limited by the size, or all that are left for -1, an error for zero and other negative numbers; no download exactly when they are in the window with one byte to spare |
| BlobReads.BlobRead.ReadAll | python/oneseismic/internal/blobfs.py:314-321 | The rest of the blob, after which the position is its end, and the window stays |
| BlobReads.BlobRead.Seek | python/oneseismic/internal/blobfs.py:332-342 | The offset from the start, the position or the end, wherever that is, and an error that changes nothing for an unknown origin |
| BlobReads.SeeksAdd | python/oneseismic/internal/blobfs.py:332-342 | Two seeks from the position add up and undo each other, and seeks from the start and the end forget the position |
| BlobReads.Run | python/oneseismic/internal/blobfs.py:284-342 | Any sequence of reads and seeks gives the replies of a plain file, as long as nothing is read before the start |
| BlobReads.ReadInPieces | python/oneseismic/internal/blobfs.py:284-312 | Reading in pieces of any size gives the whole file |

## Findings

Four properties that the repository's design suggests do not hold for all
inputs. Each is shown with an input, and with the exact condition under which it
holds.

| property | where it fails | exactly when it holds |
|---|---|---|
| The traces of an attribute in a curtain arrive in the rows of the points (core/src/plan.cpp:317-362). The points are grouped by the fragments of the data only (core/src/messages.cpp:432-442) | AttributeCurtain.NotForAllTiles: points (0, 0), (0, 600), (64, 0), fragments of 64 samples a side, tiles of 512 by 512 | AttributeCurtain.RightIffContiguous: the points are contiguous for the attribute's tiles. AttributeCurtain.GroupedForTiles gives shapes that guarantee it |
| A filter restricts the manifests that a geometry finds (api/internal/postgres/postgres.go:321-329). Several geometries are joined by OR, without parentheses, and then joined to the filter by AND. The comment of the function says that the two are joined by OR; the model follows the code | SqlFilter.TwoGeometries: a point, a polygon and a filter | SqlFilter.WhereMeansBoth: at most one geometry, or a filter that says nothing |
| A worker of the fetch pool goes on to the next request (api/cmd/fetch/pipeline.go:249-261). After an error gather stops reading, while the requests of its job go on (api/cmd/fetch/fetch.go:282-296) | BlockedWorkers.StuckPossible: the first fetch fails, the channel fills up, and one worker waits for good | BlockedWorkers.BlocksIff: a job has at most one fragment more than the node has workers |
| A query that is valid gets a plan or an error. A curtain without points has no jobs to count, and the exception leaves a function that is declared not to throw (core/src/plan.cpp:413-419) | Scheduling.NoPoints: no points | Scheduling.ScheduleCurtain and Scheduling.ScheduleSlice: there are points, and every output's jobs can be counted in an int |

## Left out

- JSON and MessagePack objects: messages are datatypes, and a malformed message is an object that is not what is expected.
- Redis, Azure, HTTP, the Go and Python bindings, logging, tokens, command lines: only what is stored, sent and received is modelled; a Redis stream is a sequence, delivered at most once to each consumer group.
- Delivery: that a run can finish is shown (FinishedRuns), and not that it will; a read error ends a collector, and the failure channel of collectResult (api/api/result.go:58) is not modelled.
- The cache of fragments in the fetch process, and cancelled contexts: a fetch gives the stored fragment or an error.
- Floating point: the affine map and the search for the nearest line are over the reals, so rounding in the products is not modelled; the conversion of samples, the inversion of the affine matrix and the statistics scanner are not part of this model.
- Surveys and manifests with other than three dimensions, and fragment shapes of zero: the planner is for exactly three; the index arithmetic, gvt::slice included, is for any number of dimensions.
- An attribute named "data": the planner would plan the data twice; queries are assumed to ask for recorded attributes.
- Ints: products, offsets, prefix sums and positions are modelled with the wrap-around of the source, and shown not to wrap when a fragment, a plane and the rows of a curtain times its depth fit in an int; beyond that nothing is claimed.
- Writes outside a buffer: the decoder does not look; the model rejects such a bundle (`OutOfBuffer`), and shows that no planned bundle is one. Bundles that are malformed otherwise are rejected as a whole, where the source may have copied a part before it throws.
- The number of tasks of a whole query is assumed to fit in an int, as the header announces it in one.
- A node takes jobs one after the other; the model lets it enqueue the requests of several jobs in any interleaving, so safety is shown for more runs than there are, and the run that blocks a worker has one job only.
- Upload: one file set, with the values that its extract function takes from a trace; the source runs three side by side, which share nothing. Values are one per sample of the depth, or one per trace.
- A stream of pieces that is a list and not an iterator: decode_stream would read it from the start again after the header.
- A reader for blobs that is read before the start of the blob: the answer is the store's, and not part of this model.
- Services.CollectResult: states nothing about reads that never return.
- AttributeCurtain.RightIffContiguous: for samples that are not zero, because a cell that was never written holds zero, and cannot be told from a sample that is zero.
