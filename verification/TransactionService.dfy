/** The transaction service as the object it is: a repository of rows, and methods that read a row,
    overwrite fields of their copy and save it after an await. A method call here runs from one await
    to the next; `Save` is the continuation of any of them. */
module TransactionService {
  import opened Collections
  import opened MultisigRecord
  import opened MultisigProtocol

  class Service {
    const verify: Verifier
    var repository: map<Id, Record>
    var open: map<Ticket, Flight>
    var issued: map<Id, Record>

    ghost function Abstract(): State
      reads this
    {
      State(repository, open, issued)
    }

    constructor (verify: Verifier)
      ensures Abstract() == INITIAL && this.verify == verify
    {
      this.verify := verify;
      repository, open, issued := map[], map[], map[];
    }

    /** `id` is the identifier the database generates. */
    method Create(id: Id, dto: CreateRequest) returns (transaction: Record)
      requires IsUuid(id) && id !in issued
      modifies this
      ensures Abstract() == Step(verify, old(Abstract()), MultisigProtocol.Create(id, dto))
      ensures transaction == NewRecord(dto) && id in repository && repository[id] == transaction
    {
      var keys := Distinct(dto.keyList);
      var threshold := dto.threshold;
      if threshold == 0 || threshold > |keys| {
        threshold := |keys|;
      }
      transaction := Record(dto.payload, keys, threshold, [], [], Pending);
      repository := repository[id := transaction];
      issued := issued[id := transaction];
    }

    /** `sign` up to its save: the checks in order, then the copy that will be written. */
    method BeginSign(ticket: Ticket, id: Id, key: Key, sig: Signature) returns (r: Result<Record, ServiceError>)
      requires ticket !in open
      modifies this
      ensures Abstract() == Step(verify, old(Abstract()), Read(ticket, SignRequest(id, key, sig)))
      ensures r == (match Attempt(verify, old(repository), SignRequest(id, key, sig))
                    case Success(write) => Success(write.row)
                    case Failure(e) => Failure(e))
    {
      if !IsUuid(id) {
        return Failure(InvalidUuid);
      }
      if id !in repository {
        return Failure(TransactionNotFound);
      }
      var transaction := repository[id];
      if key in transaction.signedKeys {
        return Failure(MessageAlreadySigned);
      }
      if key !in transaction.keyList {
        return Failure(UnauthorizedKey);
      }
      match verify(transaction.payload, key, sig) {
        case Unreadable => return Failure(UnreadableMessage);
        case Rejected => return Failure(InvalidSignature);
        case Accepted =>
      }
      open := open[ticket := Flight(SignRequest(id, key, sig), transaction)];
      transaction := transaction.(signedKeys := transaction.signedKeys + [key]);
      transaction := transaction.(signatures := transaction.signatures + [sig]);
      if |transaction.signedKeys| >= transaction.threshold {
        transaction := transaction.(status := Signed);
      }
      r := Success(transaction);
    }

    method BeginUpdateStatus(ticket: Ticket, id: Id, newState: Status) returns (r: Result<Record, ServiceError>)
      requires ticket !in open
      modifies this
      ensures Abstract() == Step(verify, old(Abstract()), Read(ticket, StatusRequest(id, newState)))
      ensures r == (match Attempt(verify, old(repository), StatusRequest(id, newState))
                    case Success(write) => Success(write.row)
                    case Failure(e) => Failure(e))
    {
      if !IsUuid(id) {
        return Failure(InvalidUuid);
      }
      if id !in repository {
        return Failure(TransactionNotFound);
      }
      var transaction := repository[id];
      open := open[ticket := Flight(StatusRequest(id, newState), transaction)];
      r := Success(transaction.(status := newState));
    }

    method BeginDelete(ticket: Ticket, id: Id) returns (r: Result<(), ServiceError>)
      requires ticket !in open
      modifies this
      ensures Abstract() == Step(verify, old(Abstract()), Read(ticket, DeleteRequest(id)))
      ensures r.Success? <==> IsUuid(id) && id in old(repository)
      ensures r.Failure? ==> r.error == TransactionNotFound
    {
      if !IsUuid(id) {
        return Failure(TransactionNotFound);
      }
      if id !in repository {
        return Failure(TransactionNotFound);
      }
      open := open[ticket := Flight(DeleteRequest(id), repository[id])];
      r := Success(());
    }

    /** The repository call a request ends with. `row` is the copy the request has been holding. */
    method Save(ticket: Ticket, row: Record)
      requires ticket in open
      requires Decide(verify, open[ticket].request, open[ticket].base) == Success(MultisigProtocol.Save(row))
      modifies this
      ensures Abstract() == Step(verify, old(Abstract()), Finish(ticket))
    {
      repository := repository[open[ticket].request.id := row];
      open := open - {ticket};
    }

    method Remove(ticket: Ticket)
      requires ticket in open && open[ticket].request.DeleteRequest?
      modifies this
      ensures Abstract() == Step(verify, old(Abstract()), Finish(ticket))
    {
      repository := repository - {open[ticket].request.id};
      open := open - {ticket};
    }

    /** `sign` with nothing running beside it: one accepted signature more, or the reason why not. */
    method Sign(ticket: Ticket, id: Id, key: Key, sig: Signature) returns (r: Result<Record, ServiceError>)
      requires ticket !in open
      modifies this
      ensures open == old(open) && issued == old(issued)
      ensures r.Success? ==>
                && id in old(repository) && MultisigRecord.Sign(verify, old(repository)[id], key, sig) == r
                && repository == old(repository)[id := r.value]
      ensures r.Failure? ==> repository == old(repository)
    {
      r := BeginSign(ticket, id, key, sig);
      if r.Success? {
        Save(ticket, r.value);
        assert open == old(open);
      }
    }
  }
}
