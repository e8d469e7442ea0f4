/** The persistent store as its two buckets (internal/store/store.go); the task codec is taken to be lossless. */
module Storage {
  import opened BigEndian
  import opened Tasks

  datatype Option<+T> = None | Some(value: T)

  class Store {
    var tasks: map<string, Task>
    var queue: map<string, seq<Byte>>

    constructor ()
      ensures tasks == map[] && queue == map[]
    {
      tasks, queue := map[], map[];
    }

    /** `ok` is whether the database transaction succeeds; a failed one leaves the bucket as it was. */
    method PutTask(id: string, task: Task, ok: bool)
      modifies this`tasks
      ensures tasks == if ok then old(tasks)[id := task] else old(tasks)
    {
      if ok {
        tasks := tasks[id := task];
      }
    }

    method GetTask(id: string) returns (task: Option<Task>)
      ensures task == if id in tasks then Some(tasks[id]) else None
    {
      task := if id in tasks then Some(tasks[id]) else None;
    }

    /** Every stored id exactly once, in an order the caller cannot rely on. */
    method ListTasks() returns (ids: seq<string>)
      ensures multiset(ids) == multiset(tasks.Keys)
      ensures forall id :: id in ids <==> id in tasks
    {
      ids := [];
      var left := tasks.Keys;
      while left != {}
        invariant left <= tasks.Keys
        invariant multiset(ids) + multiset(left) == multiset(tasks.Keys)
      {
        var id :| id in left;
        ids, left := ids + [id], left - {id};
      }
      assert forall id :: id in ids <==> id in multiset(ids);
    }

    method EnqueueMessage(key: string, data: seq<Byte>, ok: bool)
      modifies this`queue
      ensures queue == if ok then old(queue)[key := data] else old(queue)
    {
      if ok {
        queue := queue[key := data];
      }
    }

    method DequeueMessage(key: string, ok: bool)
      modifies this`queue
      ensures queue == if ok then old(queue) - {key} else old(queue)
    {
      if ok {
        queue := queue - {key};
      }
    }
  }
}
