/**
 * AsyncMethodInfoRpcOperation: the callee-side RPC operation built from a
 * task-returning method. Reflection is reduced to a method record (its
 * return type, parameters, procedure attribute and collection-result
 * attribute); the reflective call, argument unpacking and task casting are
 * collaborators passed in as functions.
 */
module RpcOperations {
  import opened Wrappers

  /** The return type of the reflected method: the plain Task, a Task<T>, or anything else. */
  datatype ReturnType = PlainTask | GenericTask(resultType: string) | NonTask(typeName: string)

  /** How a collection-valued result is sent back: as one value, or spread over the positional results. */
  datatype CollectionResultTreatment = SingleValue | Multivalued

  /** A reflected parameter. */
  datatype ParameterInfo = ParameterInfo(name: string, position: nat, parameterType: string, isOptional: bool)

  /** An RpcParameter, built from one reflected parameter. */
  datatype RpcParameter = RpcParameter(parameter: ParameterInfo)

  /** A [WampProcedure] attribute. */
  datatype WampProcedureAttribute = WampProcedureAttribute(procedure: string)

  /** A MethodInfo, as far as the operation reads it. */
  datatype MethodInfo = MethodInfo(
    name: string,
    returnType: ReturnType,
    parameters: seq<ParameterInfo>,
    procedureAttribute: Option<WampProcedureAttribute>,
    collectionResultTreatment: CollectionResultTreatment)

  /** The object the method is invoked on, by identity. */
  datatype Instance = Instance(id: nat)

  /** The task a successful invocation returns, by identity. */
  datatype TaskRef = TaskRef(id: nat)

  /** A native argument value produced by unpacking, by identity. */
  datatype Value = Value(id: nat)

  /** The kinds of exception that reach or leave InvokeAsync. */
  datatype ExceptionKind =
    | WampError(error: string)            // a WampException raised with this error URI
    | RuntimeError                        // the WampException ConvertExceptionToRuntimeException builds
    | TargetInvocation(inner: Exception)  // the reflection wrapper around what the target threw
    | NullReference
    | Native(typeName: string)            // any other exception

  /** An exception: its kind and its message. */
  datatype Exception = Exception(kind: ExceptionKind, message: string)

  /** `e is WampException`: the protocol-shaped errors, the converted runtime error among them. */
  predicate IsWampException(e: Exception)
  {
    e.kind.WampError? || e.kind.RuntimeError?
  }

  /** What dereferencing a missing attribute raises. */
  const NullReferenceException: Exception :=
    Exception(NullReference, "Object reference not set to an instance of an object.")

  /** What a reflective call of the target does. */
  datatype ReflectionOutcome = Returned(task: TaskRef) | Threw(exception: Exception)

  /** What InvokeAsync does: hand back the (cast) task, or throw. */
  datatype InvokeOutcome = ReturnedTask(task: TaskRef) | Thrown(exception: Exception)

  /** The immutable state of an AsyncMethodInfoRpcOperation. */
  datatype Operation = Operation(
    procedure: string,
    instance: Instance,
    methodInfo: MethodInfo,
    parameters: seq<RpcParameter>,
    hasResult: bool,
    collectionResultTreatment: CollectionResultTreatment)

  /** The `Select(parameter => new RpcParameter(parameter))` over the method's parameters. */
  function ToRpcParameters(parameters: seq<ParameterInfo>): (r: seq<RpcParameter>)
    ensures |r| == |parameters|
    ensures forall i :: 0 <= i < |r| ==> r[i].parameter == parameters[i]
  {
    if parameters == [] then [] else [RpcParameter(parameters[0])] + ToRpcParameters(parameters[1..])
  }

  /** Whether the method produces a result: every return type but the plain Task does. */
  function HasResult(returnType: ReturnType): (b: bool)
  {
    if returnType != PlainTask then true else false
  }

  lemma HasResultCases(resultType: string, typeName: string)
    ensures !HasResult(PlainTask)
    ensures HasResult(GenericTask(resultType))
    ensures HasResult(NonTask(typeName))
  {
  }

  /** The three-argument constructor: an operation for `methodInfo` on `instance`, named `procedureName`. */
  function NewOperation(instance: Instance, methodInfo: MethodInfo, procedureName: string): (op: Operation)
  {
    Operation(
      procedureName,
      instance,
      methodInfo,
      ToRpcParameters(methodInfo.parameters),
      HasResult(methodInfo.returnType),
      methodInfo.collectionResultTreatment)
  }

  /**
   * What the constructor promises: the given name, no result exactly for
   * the plain Task, one RpcParameter per method parameter in order, and the
   * collection-result treatment the method declares.
   */
  lemma NewOperationDescribesMethod(instance: Instance, methodInfo: MethodInfo, procedureName: string)
    ensures var op := NewOperation(instance, methodInfo, procedureName);
      && op.procedure == procedureName
      && op.instance == instance && op.methodInfo == methodInfo
      && (op.hasResult <==> methodInfo.returnType != PlainTask)
      && |op.parameters| == |methodInfo.parameters|
      && (forall i :: 0 <= i < |op.parameters| ==> op.parameters[i] == RpcParameter(methodInfo.parameters[i]))
      && op.collectionResultTreatment == methodInfo.collectionResultTreatment
  {
  }

  /**
   * GetProcedure: the Procedure of the method's [WampProcedure] attribute.
   * The check for a missing attribute raises nothing, so a missing
   * attribute ends in a NullReferenceException at the dereference.
   */
  function GetProcedure(methodInfo: MethodInfo): (r: Result<string, Exception>)
    ensures r.Success? <==> methodInfo.procedureAttribute.Some?
    ensures r.Success? ==> r.value == methodInfo.procedureAttribute.value.procedure
    ensures r.Failure? ==> r.error == NullReferenceException
  {
    match methodInfo.procedureAttribute
    case Some(attribute) => Success(attribute.procedure)
    case None => Failure(NullReferenceException)
  }

  /** The two-argument constructor: the operation named by the method's attribute. */
  function NewOperationFromAttribute(instance: Instance, methodInfo: MethodInfo): (r: Result<Operation, Exception>)
  {
    match GetProcedure(methodInfo)
    case Success(procedure) => Success(NewOperation(instance, methodInfo, procedure))
    case Failure(e) => Failure(e)
  }

  /** The two-argument constructor succeeds exactly when the attribute is there, and then agrees with the three-argument one. */
  lemma NewOperationFromAttributeCases(instance: Instance, methodInfo: MethodInfo)
    ensures methodInfo.procedureAttribute.None? ==>
      NewOperationFromAttribute(instance, methodInfo) == Failure(NullReferenceException)
    ensures methodInfo.procedureAttribute.Some? ==>
      NewOperationFromAttribute(instance, methodInfo)
        == Success(NewOperation(instance, methodInfo, methodInfo.procedureAttribute.value.procedure))
  {
  }

  /**
   * ConvertExceptionToRuntimeException: a runtime error that carries the
   * original exception's message and nothing else of it.
   */
  function ConvertToRuntimeError(original: Exception): (e: Exception)
    ensures IsWampException(e) && e.message == original.message
  {
    Exception(RuntimeError, original.message)
  }

  /**
   * The catch block of InvokeAsync: a WampException thrown by the target
   * is rethrown as it is; anything else is converted to a runtime error.
   */
  function TranslateInnerException(inner: Exception): (e: Exception)
  {
    if IsWampException(inner) then inner else ConvertToRuntimeError(inner)
  }

  /**
   * Translation keeps a WampException unchanged and converts anything else
   * to a runtime error. Either way the caller sees a WampException with the
   * inner exception's message, never the reflection wrapper. Translating
   * twice changes nothing more. Two converted exceptions with the same
   * message are the same error, since only the message is kept.
   */
  lemma TranslateInnerExceptionProperties(inner: Exception, other: Exception)
    ensures IsWampException(inner) ==> TranslateInnerException(inner) == inner
    ensures !IsWampException(inner) ==> TranslateInnerException(inner) == Exception(RuntimeError, inner.message)
    ensures IsWampException(TranslateInnerException(inner))
    ensures !TranslateInnerException(inner).kind.TargetInvocation?
    ensures TranslateInnerException(inner).message == inner.message
    ensures TranslateInnerException(TranslateInnerException(inner)) == TranslateInnerException(inner)
    ensures !IsWampException(inner) && !IsWampException(other) && inner.message == other.message ==>
      TranslateInnerException(inner) == TranslateInnerException(other)
  {
  }

  /**
   * InvokeAsync: unpack the arguments, invoke the target on them, and
   * translate what the target throws. An exception from unpacking, or one
   * the reflective call raises without the TargetInvocationException
   * wrapper, propagates unchanged.
   */
  function InvokeAsync<M>(
    op: Operation,
    unpackParameters: (seq<M>, map<string, M>) -> Result<seq<Value>, Exception>,
    invoke: (Instance, MethodInfo, seq<Value>) -> ReflectionOutcome,
    arguments: seq<M>,
    argumentsKeywords: map<string, M>): (r: InvokeOutcome)
  {
    match unpackParameters(arguments, argumentsKeywords)
    case Failure(e) => Thrown(e)
    case Success(unpacked) =>
      match invoke(op.instance, op.methodInfo, unpacked)
      case Returned(task) => ReturnedTask(task)
      case Threw(e) =>
        if e.kind.TargetInvocation? then Thrown(TranslateInnerException(e.kind.inner)) else Thrown(e)
  }

  /** Unpacking comes first: when it fails, the target is never consulted and its exception propagates. */
  lemma InvokeAsyncUnpacksFirst<M>(
    op: Operation,
    unpackParameters: (seq<M>, map<string, M>) -> Result<seq<Value>, Exception>,
    invoke: (Instance, MethodInfo, seq<Value>) -> ReflectionOutcome,
    otherInvoke: (Instance, MethodInfo, seq<Value>) -> ReflectionOutcome,
    arguments: seq<M>,
    argumentsKeywords: map<string, M>)
    requires unpackParameters(arguments, argumentsKeywords).Failure?
    ensures InvokeAsync(op, unpackParameters, invoke, arguments, argumentsKeywords)
         == Thrown(unpackParameters(arguments, argumentsKeywords).error)
    ensures InvokeAsync(op, unpackParameters, invoke, arguments, argumentsKeywords)
         == InvokeAsync(op, unpackParameters, otherInvoke, arguments, argumentsKeywords)
  {
  }

  /**
   * When unpacking succeeds the target runs on the unpacked arguments: its
   * task is handed back; a WampException it throws is rethrown unchanged;
   * any other exception it throws surfaces as the runtime error carrying
   * its message, and never as the reflection wrapper.
   */
  lemma InvokeAsyncTranslatesTargetExceptions<M>(
    op: Operation,
    unpackParameters: (seq<M>, map<string, M>) -> Result<seq<Value>, Exception>,
    invoke: (Instance, MethodInfo, seq<Value>) -> ReflectionOutcome,
    arguments: seq<M>,
    argumentsKeywords: map<string, M>)
    requires unpackParameters(arguments, argumentsKeywords).Success?
    ensures var unpacked := unpackParameters(arguments, argumentsKeywords).value;
      var outcome := invoke(op.instance, op.methodInfo, unpacked);
      var r := InvokeAsync(op, unpackParameters, invoke, arguments, argumentsKeywords);
      && (outcome.Returned? ==> r == ReturnedTask(outcome.task))
      && (outcome.Threw? && outcome.exception.kind.TargetInvocation? ==>
            var inner := outcome.exception.kind.inner;
            && r.Thrown?
            && IsWampException(r.exception)
            && r.exception.message == inner.message
            && (IsWampException(inner) ==> r.exception == inner)
            && (!IsWampException(inner) ==> r.exception == Exception(RuntimeError, inner.message)))
      && (outcome.Threw? && !outcome.exception.kind.TargetInvocation? ==> r == Thrown(outcome.exception))
  {
    var unpacked := unpackParameters(arguments, argumentsKeywords).value;
    var outcome := invoke(op.instance, op.methodInfo, unpacked);
    if outcome.Threw? && outcome.exception.kind.TargetInvocation? {
      TranslateInnerExceptionProperties(outcome.exception.kind.inner, outcome.exception.kind.inner);
    }
  }
}
