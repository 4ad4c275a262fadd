/** The constructors, moves, close and destructor of `class Socket`, each proved to be the
corresponding operation of module Descriptors on the objects it touches. */
module SocketHandles {
  import opened Wrappers
  import opened Descriptors

  /** The process's descriptor table. */
  class Table {
    var kernel: Kernel

    constructor ()
      ensures kernel == NOTHING.kernel
    {
      kernel := NOTHING.kernel;
    }

    /** ::socket or ::accept: the kernel answers with an unused number, or fails. */
    method Open(answer: Option<nat>) returns (fd: Descriptor)
      requires answer.Some? ==> answer.value !in kernel.open
      modifies this
      ensures fd == (if answer.Some? then answer.value else -1)
      ensures kernel == if answer.Some? then SysOpen(old(kernel), fd) else old(kernel)
    {
      match answer
      case None => fd := -1;
      case Some(number) =>
        fd := number;
        kernel := SysOpen(kernel, fd);
    }

    method Close(fd: int)
      modifies this
      ensures kernel == SysClose(old(kernel), fd)
    {
      kernel := SysClose(kernel, fd);
    }
  }

  class Socket {
    var fd: Descriptor
    const table: Table

    constructor (fd: Descriptor, table: Table)
      ensures this.fd == fd && this.table == table
    {
      this.fd, this.table := fd, table;
    }

    /** The move constructor. */
    constructor Move(other: Socket)
      modifies other
      ensures table == other.table
      ensures Step(One(table, old(other.fd)), MoveConstruct(0)) == Some(Two(table, other.fd, fd))
    {
      fd, table := other.fd, other.table;
      new;
      other.fd := -1;
      assert [Handle(true, fd)][0 := Handle(true, -1)] + [Handle(true, fd)] == [Handle(true, -1), Handle(true, fd)];
    }

    /** create_tcp, and the object accept returns. */
    static method Create(table: Table, answer: Option<nat>) returns (s: Socket)
      requires answer.Some? ==> answer.value !in table.kernel.open
      modifies table
      ensures fresh(s) && s.table == table
      ensures Step(World(old(table.kernel), []), Make(answer)) == Some(One(table, s.fd))
    {
      var fd := table.Open(answer);
      s := new Socket(fd, table);
      assert [] + [Handle(true, fd)] == [Handle(true, fd)];
    }

    /** The move assignment. */
    method Assign(other: Socket)
      requires other.table == table
      modifies this, other, table
      ensures other == this ==> Step(old(One(table, fd)), MoveAssign(0, 0)) == Some(One(table, fd))
      ensures other != this ==> Step(old(Two(table, fd, other.fd)), MoveAssign(0, 1)) == Some(Two(table, fd, other.fd))
    {
      ghost var before := [Handle(true, fd), Handle(true, other.fd)];
      if this != other {
        Close();
        fd := other.fd;
        other.fd := -1;
        assert before[0 := before[1]][1 := Handle(true, -1)] == [Handle(true, fd), Handle(true, other.fd)];
      }
    }

    method Close()
      modifies `fd, table
      ensures Step(old(One(table, fd)), Descriptors.Close(0)) == Some(One(table, fd))
      ensures table.kernel == Release(old(table.kernel), old(fd)) && fd == -1
    {
      assert [Handle(true, fd)][0 := Handle(true, -1)] == [Handle(true, -1)];
      if fd >= 0 {
        table.Close(fd);
        fd := -1;
      }
    }

    /** The destructor's body. */
    method Destruct()
      modifies `fd, table
      ensures Step(old(One(table, fd)), Destroy(0)) == Some(World(table.kernel, [Handle(false, fd)]))
    {
      assert [Handle(true, fd)][0 := Handle(false, -1)] == [Handle(false, -1)];
      Close();
    }
  }

  /** The table with one live object, and with two. */
  function One(t: Table, fd: Descriptor): World
    reads t
  {
    World(t.kernel, [Handle(true, fd)])
  }

  function Two(t: Table, a: Descriptor, b: Descriptor): World
    reads t
  {
    World(t.kernel, [Handle(true, a), Handle(true, b)])
  }
}
